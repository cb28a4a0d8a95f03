/**
 * The crawl of scripts/download_pdfs.py: a LIFO worklist of directory URLs,
 * a `visited` set of normalised directory URLs, and for every link of every
 * listing the skip test, the scope test, the classification and, for PDFs,
 * the download decision.
 *
 * The network, `urlparse`, `urljoin`, `unquote` and the file system are given
 * as an `Env`; the local files are a map from local path to size. The log of
 * events stands for what the crawler prints. `Step` and `Run` specify the
 * crawl; `Crawl` is the loop itself, proved equal to `Run`.
 */
module Crawler {

  import opened Wrappers
  import opened Strings
  import opened Links
  import opened Urls
  import opened LocalPaths
  import opened Downloads
  import opened Listing

  /** What the crawler gets from outside. */
  datatype Env = Env(
    fetchPage: string -> Option<seq<StartTag>>,  // GET of a listing: its start tags, None when urlopen raises URLError
    parse: string -> UrlParts,                   // urlparse
    join: (string, string) -> string,            // urljoin
    unquote: string -> string,                   // unquote (percent-decoding)
    remoteSize: string -> Option<nat>,           // get_remote_file_size (HEAD and Content-Length)
    download: string -> Option<nat>)             // GET and copy of a file: bytes written, None on URLError

  /** The normalised base URL, the destination root and the dry-run flag. */
  datatype Config = Config(base: string, destRoot: LocalPath, dryRun: bool)

  /** The events the crawler reports. */
  datatype Event =
    | Visit(normalized: string, fetched: string)  // `[CRAWL] Visiting`, followed by the fetch of `fetched`
    | FetchFailed(url: string)                     // `[WARN] Failed to fetch`
    | QueueDir(url: string)                        // `[QUEUE] Found directory`
    | File(url: string, local: LocalPath, remoteSize: Option<nat>, action: Action)  // `[FILE]`, then the decision
    | Fetched(url: string, local: LocalPath, outcome: Downloaded)  // the body was copied to `local`
    | DownloadFailed(url: string)                  // `[WARN] Failed to download`

  datatype CrawlState = CrawlState(queue: seq<string>, visited: set<string>, files: map<LocalPath, nat>, log: seq<Event>)

  /** The scope test of the crawl loop: same origin as the base URL and inside its path. */
  predicate InScope(env: Env, cfg: Config, url: string) {
    IsSameOrigin(env.parse(url), env.parse(cfg.base)) &&
    IsWithinBasePath(env.parse(url).path, env.parse(cfg.base).path)
  }

  /** `download_file(url, local, dry_run, expected)` on the local files and the log. */
  function DownloadFile(env: Env, cfg: Config, url: string, local: LocalPath, expected: Option<nat>, s: CrawlState): CrawlState {
    var action := Decide(if local in s.files then Some(s.files[local]) else None, expected, cfg.dryRun);
    var s1 := s.(log := s.log + [File(url, local, expected, action)]);
    if action.Fetch? then Transfer(env, url, local, expected, s1) else s1
  }

  /** The GET and copy of `download_file`, then the size check; a `URLError` leaves the files alone. */
  function Transfer(env: Env, url: string, local: LocalPath, expected: Option<nat>, s: CrawlState): CrawlState {
    match env.download(url)
    case None => s.(log := s.log + [DownloadFailed(url)])
    case Some(size) => s.(files := s.files[local := size], log := s.log + [Fetched(url, local, CheckDownloaded(expected, size))])
  }

  /** One pass of the `for href in links` loop, for the page fetched from `current`. */
  function ProcessLink(env: Env, cfg: Config, current: string, href: string, s: CrawlState): CrawlState {
    if ShouldSkipLink(href) then s
    else Dispatch(env, cfg, Defrag(env.join(current, href)), ClassifyLink(href, env.unquote), s)
  }

  /** The scope test and the branch on the link's kind, for the absolute URL `absolute` of a kept link. */
  function Dispatch(env: Env, cfg: Config, absolute: string, kind: LinkKind, s: CrawlState): CrawlState {
    if !InScope(env, cfg, absolute) then s
    else
      match kind
      case Dir => s.(queue := s.queue + [absolute], log := s.log + [QueueDir(absolute)])
      case Pdf =>
        var local := BuildLocalPath(env.parse(absolute).path, env.parse(cfg.base).path, cfg.destRoot);
        DownloadFile(env, cfg, absolute, local, env.remoteSize(absolute), s)
      case _ => s
  }

  /** The whole `for href in links` loop, links taken in order. */
  function ProcessLinks(env: Env, cfg: Config, current: string, links: seq<string>, s: CrawlState): CrawlState
    decreases |links|
  {
    if links == [] then s
    else ProcessLink(env, cfg, current, links[|links| - 1], ProcessLinks(env, cfg, current, links[..|links| - 1], s))
  }

  /** One turn of `while queue`: pop the newest URL, skip it if its normalised form was visited, else fetch and process. */
  function Step(env: Env, cfg: Config, s: CrawlState): CrawlState
    requires s.queue != []
  {
    var current := s.queue[|s.queue| - 1];
    var s1 := s.(queue := s.queue[..|s.queue| - 1]);
    var normalized := NormalizeDirectoryUrl(current);
    if normalized in s1.visited then s1
    else
      var s2 := s1.(visited := s1.visited + {normalized}, log := s1.log + [Visit(normalized, current)]);
      match env.fetchPage(current)
      case None => s2.(log := s2.log + [FetchFailed(current)])
      case Some(page) => ProcessLinks(env, cfg, current, ExtractLinks(page), s2)
  }

  /** At most `fuel` turns of the loop, stopping early when the queue runs empty. */
  function Run(env: Env, cfg: Config, s: CrawlState, fuel: nat): CrawlState
    decreases fuel
  {
    if fuel == 0 || s.queue == [] then s else Run(env, cfg, Step(env, cfg, s), fuel - 1)
  }

  /** The state before the loop: the base URL queued, nothing visited, nothing logged. */
  function Start(cfg: Config, files: map<LocalPath, nat>): CrawlState {
    CrawlState([cfg.base], {}, files, [])
  }

  // ---------------------------------------------------------------------
  // What the crawl keeps true
  // ---------------------------------------------------------------------

  /** What each logged event guarantees about the URL it names. */
  predicate EventOk(env: Env, cfg: Config, e: Event) {
    match e
    case Visit(normalized, fetched) =>
      normalized == NormalizeDirectoryUrl(fetched) && (fetched == cfg.base || InScope(env, cfg, fetched))
    case FetchFailed(url) => url == cfg.base || InScope(env, cfg, url)
    case QueueDir(url) => InScope(env, cfg, url)
    case File(url, _, size, action) =>
      && InScope(env, cfg, url)
      && size == env.remoteSize(url)
      && (cfg.dryRun ==> !action.Fetch?)
    case Fetched(url, _, _) => !cfg.dryRun && InScope(env, cfg, url)
    case DownloadFailed(url) => !cfg.dryRun && InScope(env, cfg, url)
  }

  /** Every event of the log is sound. */
  predicate EventsOk(env: Env, cfg: Config, log: seq<Event>)
    decreases |log|
  {
    log == [] || (EventsOk(env, cfg, log[..|log| - 1]) && EventOk(env, cfg, log[|log| - 1]))
  }

  /** Every event of `events` is sound and none is a visit. */
  predicate Quiet(env: Env, cfg: Config, events: seq<Event>)
    decreases |events|
  {
    events == [] ||
    (Quiet(env, cfg, events[..|events| - 1]) && !events[|events| - 1].Visit? && EventOk(env, cfg, events[|events| - 1]))
  }

  /** Every URL of `urls` is in scope. */
  predicate AllInScope(env: Env, cfg: Config, urls: seq<string>)
    decreases |urls|
  {
    urls == [] || (AllInScope(env, cfg, urls[..|urls| - 1]) && InScope(env, cfg, urls[|urls| - 1]))
  }

  /** Every queued URL is the base URL or in scope. */
  predicate QueueOk(env: Env, cfg: Config, queue: seq<string>)
    decreases |queue|
  {
    queue == [] ||
    (QueueOk(env, cfg, queue[..|queue| - 1]) && (queue[|queue| - 1] == cfg.base || InScope(env, cfg, queue[|queue| - 1])))
  }

  /** The normalised URLs of the `Visit` events of a log. */
  function VisitedUrls(log: seq<Event>): set<string> {
    if log == [] then {}
    else
      var last := log[|log| - 1];
      VisitedUrls(log[..|log| - 1]) + (if last.Visit? then {last.normalized} else {})
  }

  /** No visit of the log repeats the normalised URL of an earlier one. */
  predicate VisitsDistinct(log: seq<Event>)
    decreases |log|
  {
    log == [] ||
    (var init, last := log[..|log| - 1], log[|log| - 1];
     VisitsDistinct(init) && (last.Visit? ==> last.normalized !in VisitedUrls(init)))
  }

  /** The invariant of the crawl loop; `files0` are the local files before the crawl. */
  predicate Good(env: Env, cfg: Config, files0: map<LocalPath, nat>, s: CrawlState) {
    && QueueOk(env, cfg, s.queue)
    && EventsOk(env, cfg, s.log)
    && s.visited == VisitedUrls(s.log)
    && VisitsDistinct(s.log)
    && (cfg.dryRun ==> s.files == files0)
  }

  /** `t` only adds in-scope URLs to the queue and sound non-visit events to the log, and in a dry run writes nothing. */
  predicate Extends(env: Env, cfg: Config, s: CrawlState, t: CrawlState) {
    && t.visited == s.visited
    && |s.queue| <= |t.queue| && t.queue[..|s.queue|] == s.queue && AllInScope(env, cfg, t.queue[|s.queue|..])
    && |s.log| <= |t.log| && t.log[..|s.log|] == s.log && Quiet(env, cfg, t.log[|s.log|..])
    && (cfg.dryRun ==> t.files == s.files)
  }

  /** A single in-scope URL. */
  lemma OneInScope(env: Env, cfg: Config, url: string)
    requires InScope(env, cfg, url)
    ensures AllInScope(env, cfg, [url])
  {
    assert [url][..0] == [];
  }

  /** A single sound event that is not a visit. */
  lemma OneQuiet(env: Env, cfg: Config, e: Event)
    requires !e.Visit? && EventOk(env, cfg, e)
    ensures Quiet(env, cfg, [e])
  {
    assert [e][..0] == [];
  }

  /** Appending in-scope URLs keeps both queue predicates. */
  lemma {:induction false} AppendInScope(env: Env, cfg: Config, a: seq<string>, b: seq<string>)
    requires AllInScope(env, cfg, b)
    ensures AllInScope(env, cfg, a) ==> AllInScope(env, cfg, a + b)
    ensures QueueOk(env, cfg, a) ==> QueueOk(env, cfg, a + b)
    decreases |b|
  {
    if b == [] {
      assert a + b == a;
    } else {
      var b' := b[..|b| - 1];
      assert (a + b)[..|a + b| - 1] == a + b';
      assert (a + b)[|a + b| - 1] == b[|b| - 1];
      AppendInScope(env, cfg, a, b');
    }
  }

  /** Appending sound non-visit events keeps the log sound and leaves its visits alone. */
  lemma {:induction false} AppendQuiet(env: Env, cfg: Config, a: seq<Event>, b: seq<Event>)
    requires Quiet(env, cfg, b)
    ensures Quiet(env, cfg, a) ==> Quiet(env, cfg, a + b)
    ensures EventsOk(env, cfg, a) ==> EventsOk(env, cfg, a + b)
    ensures VisitedUrls(a + b) == VisitedUrls(a)
    ensures VisitsDistinct(a) ==> VisitsDistinct(a + b)
    decreases |b|
  {
    if b == [] {
      assert a + b == a;
    } else {
      var b' := b[..|b| - 1];
      assert (a + b)[..|a + b| - 1] == a + b';
      assert (a + b)[|a + b| - 1] == b[|b| - 1];
      AppendQuiet(env, cfg, a, b');
    }
  }

  /** Appending to the queue and the log in two goes is appending in one. */
  lemma SplitTail<T>(a: seq<T>, b: seq<T>, c: seq<T>)
    requires |a| <= |b| <= |c| && c[..|b|] == b && b[..|a|] == a
    ensures c[..|a|] == a && c[|a|..] == b[|a|..] + c[|b|..]
  {
    assert c[..|a|] == c[..|b|][..|a|];
  }

  /** A sequence that starts with `a` is `a` followed by the rest. */
  lemma SplitAt<T>(a: seq<T>, b: seq<T>)
    requires |a| <= |b| && b[..|a|] == a
    ensures b == a + b[|a|..]
  {
  }

  lemma ExtendsTransitive(env: Env, cfg: Config, s: CrawlState, t: CrawlState, u: CrawlState)
    requires Extends(env, cfg, s, t) && Extends(env, cfg, t, u)
    ensures Extends(env, cfg, s, u)
  {
    SplitTail(s.queue, t.queue, u.queue);
    SplitTail(s.log, t.log, u.log);
    AppendInScope(env, cfg, t.queue[|s.queue|..], u.queue[|t.queue|..]);
    AppendQuiet(env, cfg, t.log[|s.log|..], u.log[|t.log|..]);
  }

  /** Nothing happened. */
  lemma ExtendsReflexive(env: Env, cfg: Config, s: CrawlState)
    ensures Extends(env, cfg, s, s)
  {
    assert s.queue[..|s.queue|] == s.queue && s.log[..|s.log|] == s.log;
  }

  /** Adding events to the log and nothing else. */
  lemma ExtendsByEvents(env: Env, cfg: Config, s: CrawlState, events: seq<Event>)
    requires Quiet(env, cfg, events)
    ensures Extends(env, cfg, s, s.(log := s.log + events))
  {
    var t := s.(log := s.log + events);
    assert t.log[..|s.log|] == s.log && t.log[|s.log|..] == events;
    assert s.queue[..|s.queue|] == s.queue;
  }

  /** `g` agrees with `f` on every local path except possibly `local`. */
  predicate FilesAgreeExcept(f: map<LocalPath, nat>, g: map<LocalPath, nat>, local: LocalPath) {
    && (forall p :: p in f && p != local ==> p in g && g[p] == f[p])
    && (forall p :: p in g && p != local ==> p in f)
  }

  /**
   * Fetching a file logs its outcome and writes at most that file: nothing on
   * a `URLError`, else the downloaded size at `local`, logged as fetched.
   */
  lemma TransferExtends(env: Env, cfg: Config, url: string, local: LocalPath, expected: Option<nat>, s: CrawlState)
    requires !cfg.dryRun && InScope(env, cfg, url)
    ensures Extends(env, cfg, s, Transfer(env, url, local, expected, s))
    ensures var t := Transfer(env, url, local, expected, s);
      && t.queue == s.queue && t.visited == s.visited
      && FilesAgreeExcept(s.files, t.files, local)
      && (env.download(url).None? ==> t.files == s.files)
      && (env.download(url).Some? ==>
            local in t.files && t.files[local] == env.download(url).value &&
            t.log == s.log + [Fetched(url, local, CheckDownloaded(expected, env.download(url).value))])
  {
    match env.download(url)
    case None =>
      OneQuiet(env, cfg, DownloadFailed(url));
      ExtendsByEvents(env, cfg, s, [DownloadFailed(url)]);
    case Some(size) =>
      var fetched := Fetched(url, local, CheckDownloaded(expected, size));
      OneQuiet(env, cfg, fetched);
      ExtendsByEvents(env, cfg, s, [fetched]);
  }

  /**
   * A download leaves the queue and `visited` alone, only logs the decision
   * and its outcome, writes at most `local` and only when the decision is to
   * fetch, and in a dry run never fetches.
   */
  lemma DownloadFileExtends(env: Env, cfg: Config, url: string, local: LocalPath, s: CrawlState)
    requires InScope(env, cfg, url)
    ensures Extends(env, cfg, s, DownloadFile(env, cfg, url, local, env.remoteSize(url), s))
    ensures var t := DownloadFile(env, cfg, url, local, env.remoteSize(url), s);
      && t.queue == s.queue && t.visited == s.visited
      && FilesAgreeExcept(s.files, t.files, local)
      && (!Decide(if local in s.files then Some(s.files[local]) else None, env.remoteSize(url), cfg.dryRun).Fetch? ==> t.files == s.files)
  {
    var expected := env.remoteSize(url);
    var action := Decide(if local in s.files then Some(s.files[local]) else None, expected, cfg.dryRun);
    var file := File(url, local, expected, action);
    var s1 := s.(log := s.log + [file]);
    OneQuiet(env, cfg, file);
    ExtendsByEvents(env, cfg, s, [file]);
    if action.Fetch? {
      TransferExtends(env, cfg, url, local, expected, s1);
      ExtendsTransitive(env, cfg, s, s1, Transfer(env, url, local, expected, s1));
    }
  }

  /**
   * A kept link queues only an in-scope directory or downloads only an
   * in-scope PDF, and writes no file but the one `build_local_path` names
   * for an in-scope PDF.
   */
  lemma DispatchExtends(env: Env, cfg: Config, absolute: string, kind: LinkKind, s: CrawlState)
    ensures Extends(env, cfg, s, Dispatch(env, cfg, absolute, kind, s))
    ensures var t := Dispatch(env, cfg, absolute, kind, s);
      && (!InScope(env, cfg, absolute) || kind != Pdf ==> t.files == s.files)
      && FilesAgreeExcept(s.files, t.files, BuildLocalPath(env.parse(absolute).path, env.parse(cfg.base).path, cfg.destRoot))
  {
    ExtendsReflexive(env, cfg, s);
    if InScope(env, cfg, absolute) {
      match kind
      case Dir =>
        var t := s.(queue := s.queue + [absolute], log := s.log + [QueueDir(absolute)]);
        assert t.queue[..|s.queue|] == s.queue && t.queue[|s.queue|..] == [absolute];
        assert t.log[..|s.log|] == s.log && t.log[|s.log|..] == [QueueDir(absolute)];
        OneInScope(env, cfg, absolute);
        OneQuiet(env, cfg, QueueDir(absolute));
      case Pdf =>
        DownloadFileExtends(env, cfg, absolute, BuildLocalPath(env.parse(absolute).path, env.parse(cfg.base).path, cfg.destRoot), s);
      case _ =>
    }
  }

  lemma ProcessLinkExtends(env: Env, cfg: Config, current: string, href: string, s: CrawlState)
    ensures Extends(env, cfg, s, ProcessLink(env, cfg, current, href, s))
  {
    if ShouldSkipLink(href) {
      ExtendsReflexive(env, cfg, s);
    } else {
      DispatchExtends(env, cfg, Defrag(env.join(current, href)), ClassifyLink(href, env.unquote), s);
    }
  }

  lemma {:induction false} ProcessLinksExtends(env: Env, cfg: Config, current: string, links: seq<string>, s: CrawlState)
    ensures Extends(env, cfg, s, ProcessLinks(env, cfg, current, links, s))
    decreases |links|
  {
    if links == [] {
      ExtendsReflexive(env, cfg, s);
    } else {
      var init := links[..|links| - 1];
      var mid := ProcessLinks(env, cfg, current, init, s);
      ProcessLinksExtends(env, cfg, current, init, s);
      ProcessLinkExtends(env, cfg, current, links[|links| - 1], mid);
      ExtendsTransitive(env, cfg, s, mid, ProcessLinks(env, cfg, current, links, s));
    }
  }

  lemma ExtendsKeepsGood(env: Env, cfg: Config, files0: map<LocalPath, nat>, s: CrawlState, t: CrawlState)
    requires Good(env, cfg, files0, s) && Extends(env, cfg, s, t)
    ensures Good(env, cfg, files0, t)
  {
    SplitAt(s.queue, t.queue);
    SplitAt(s.log, t.log);
    AppendInScope(env, cfg, s.queue, t.queue[|s.queue|..]);
    AppendQuiet(env, cfg, s.log, t.log[|s.log|..]);
  }

  /** One turn of the loop keeps the invariant. */
  lemma StepKeepsGood(env: Env, cfg: Config, files0: map<LocalPath, nat>, s: CrawlState)
    requires s.queue != [] && Good(env, cfg, files0, s)
    ensures Good(env, cfg, files0, Step(env, cfg, s))
  {
    var current := s.queue[|s.queue| - 1];
    var s1 := s.(queue := s.queue[..|s.queue| - 1]);
    var normalized := NormalizeDirectoryUrl(current);
    if normalized !in s1.visited {
      var s2 := s1.(visited := s1.visited + {normalized}, log := s1.log + [Visit(normalized, current)]);
      assert s2.log[..|s1.log|] == s1.log;
      assert Good(env, cfg, files0, s2);
      match env.fetchPage(current)
      case None =>
        OneQuiet(env, cfg, FetchFailed(current));
        AppendQuiet(env, cfg, s2.log, [FetchFailed(current)]);
      case Some(page) =>
        ProcessLinksExtends(env, cfg, current, ExtractLinks(page), s2);
        ExtendsKeepsGood(env, cfg, files0, s2, ProcessLinks(env, cfg, current, ExtractLinks(page), s2));
    }
  }

  /** One more turn of the loop is one more `Step`. */
  lemma RunUnfolds(env: Env, cfg: Config, s: CrawlState, fuel: nat)
    requires fuel > 0 && s.queue != []
    ensures Run(env, cfg, s, fuel) == Run(env, cfg, Step(env, cfg, s), fuel - 1)
  {
  }

  /** Any property of states that every turn of the loop keeps holds after any number of turns. */
  lemma {:induction false} RunKeeps(env: Env, cfg: Config, inv: CrawlState -> bool, s: CrawlState, fuel: nat)
    requires inv(s)
    requires forall x {:trigger Step(env, cfg, x)} :: inv(x) && x.queue != [] ==> inv(Step(env, cfg, x))
    ensures inv(Run(env, cfg, s, fuel))
    decreases fuel
  {
    if fuel > 0 && s.queue != [] {
      RunKeeps(env, cfg, inv, Step(env, cfg, s), fuel - 1);
    }
  }

  /** Any number of turns of the loop keeps the invariant. */
  lemma RunKeepsGood(env: Env, cfg: Config, files0: map<LocalPath, nat>, s: CrawlState, fuel: nat)
    requires Good(env, cfg, files0, s)
    ensures Good(env, cfg, files0, Run(env, cfg, s, fuel))
  {
    var inv := (x: CrawlState) => Good(env, cfg, files0, x);
    forall x | inv(x) && x.queue != [] ensures inv(Step(env, cfg, x)) {
      StepKeepsGood(env, cfg, files0, x);
    }
    RunKeeps(env, cfg, inv, s, fuel);
  }

  // ---------------------------------------------------------------------
  // What a whole crawl guarantees
  // ---------------------------------------------------------------------

  /** The crawl starts in a state that satisfies the invariant. */
  lemma StartGood(env: Env, cfg: Config, files0: map<LocalPath, nat>)
    ensures Good(env, cfg, files0, Start(cfg, files0))
  {
    assert [cfg.base][..0] == [];
  }

  /**
   * The base URL passes the crawl's own scope test exactly when its parsed
   * path ends in `/`; so the base URL is queued and fetched without the
   * test, and may fall outside it (a base such as `https://h/d?q`, whose
   * normalised form puts the `/` in the query).
   */
  lemma BaseInScope(env: Env, cfg: Config)
    ensures InScope(env, cfg, cfg.base) <==> EndsWith(env.parse(cfg.base).path, "/")
  {
    WithinOwnBasePath(env.parse(cfg.base).path);
  }

  /** Every visit of a log contributes its normalised URL to `VisitedUrls`. */
  lemma {:induction false} VisitedUrlsContainVisits(log: seq<Event>, i: nat)
    requires i < |log| && log[i].Visit?
    ensures log[i].normalized in VisitedUrls(log)
    decreases |log|
  {
    if i < |log| - 1 {
      assert log[..|log| - 1][i] == log[i];
      VisitedUrlsContainVisits(log[..|log| - 1], i);
    }
  }

  /** No two visits of a log share a normalised URL. */
  lemma {:induction false} VisitsDistinctPairwise(log: seq<Event>)
    requires VisitsDistinct(log)
    ensures forall i, j :: 0 <= i < j < |log| && log[i].Visit? && log[j].Visit? ==> log[i].normalized != log[j].normalized
    decreases |log|
  {
    if log != [] {
      var init := log[..|log| - 1];
      VisitsDistinctPairwise(init);
      forall i, j | 0 <= i < j < |log| && log[i].Visit? && log[j].Visit?
        ensures log[i].normalized != log[j].normalized
      {
        assert log[i] == init[i];
        if j < |log| - 1 {
          assert log[j] == init[j];
        } else {
          VisitedUrlsContainVisits(init, i);
        }
      }
    }
  }

  /** A sound log is sound event by event. */
  lemma {:induction false} EventsOkEach(env: Env, cfg: Config, log: seq<Event>)
    requires EventsOk(env, cfg, log)
    ensures forall i :: 0 <= i < |log| ==> EventOk(env, cfg, log[i])
    decreases |log|
  {
    if log != [] {
      var init := log[..|log| - 1];
      EventsOkEach(env, cfg, init);
      assert forall i :: 0 <= i < |init| ==> log[i] == init[i];
    }
  }

  /** A sound queue is sound URL by URL. */
  lemma {:induction false} QueueOkEach(env: Env, cfg: Config, queue: seq<string>)
    requires QueueOk(env, cfg, queue)
    ensures forall i :: 0 <= i < |queue| ==> queue[i] == cfg.base || InScope(env, cfg, queue[i])
    decreases |queue|
  {
    if queue != [] {
      var init := queue[..|queue| - 1];
      QueueOkEach(env, cfg, init);
      assert forall i :: 0 <= i < |init| ==> queue[i] == init[i];
    }
  }

  /**
   * After any number of turns from the start: no normalised URL is visited
   * twice and `visited` holds exactly the visited ones; only the base URL
   * and in-scope URLs are queued and fetched; only in-scope URLs are queued
   * as directories or handled as files, with the size the server announced;
   * and a dry run neither fetches nor writes any file.
   */
  lemma CrawlGuarantees(env: Env, cfg: Config, files0: map<LocalPath, nat>, fuel: nat)
    ensures var r := Run(env, cfg, Start(cfg, files0), fuel);
      && r.visited == VisitedUrls(r.log)
      && (forall i, j :: 0 <= i < j < |r.log| && r.log[i].Visit? && r.log[j].Visit? ==> r.log[i].normalized != r.log[j].normalized)
      && (forall i :: 0 <= i < |r.log| ==> EventOk(env, cfg, r.log[i]))
      && (forall i :: 0 <= i < |r.queue| ==> r.queue[i] == cfg.base || InScope(env, cfg, r.queue[i]))
      && (cfg.dryRun ==> r.files == files0)
  {
    var r := Run(env, cfg, Start(cfg, files0), fuel);
    StartGood(env, cfg, files0);
    RunKeepsGood(env, cfg, files0, Start(cfg, files0), fuel);
    VisitsDistinctPairwise(r.log);
    EventsOkEach(env, cfg, r.log);
    QueueOkEach(env, cfg, r.queue);
  }

  /** In a dry run the log holds no fetched body and no failed download, and the files stay as they were. */
  lemma DryRunWritesNothing(env: Env, cfg: Config, files0: map<LocalPath, nat>, fuel: nat)
    requires cfg.dryRun
    ensures var r := Run(env, cfg, Start(cfg, files0), fuel);
      && r.files == files0
      && forall i :: 0 <= i < |r.log| ==> !r.log[i].Fetched? && !r.log[i].DownloadFailed? && !(r.log[i].File? && r.log[i].action.Fetch?)
  {
    CrawlGuarantees(env, cfg, files0, fuel);
  }

  // ---------------------------------------------------------------------
  // The loop itself
  // ---------------------------------------------------------------------

  /** The `for href in links` loop over the links of the page fetched from `current`. */
  method HandleLinks(env: Env, cfg: Config, current: string, links: seq<string>, s: CrawlState) returns (t: CrawlState)
    ensures t == ProcessLinks(env, cfg, current, links, s)
  {
    t := s;
    for i := 0 to |links|
      invariant t == ProcessLinks(env, cfg, current, links[..i], s)
    {
      assert links[..i + 1][..i] == links[..i];
      t := ProcessLink(env, cfg, current, links[i], t);
    }
    assert links[..|links|] == links;
  }

  /** One turn of `while queue`: pop the newest URL, skip it when visited, else mark it, fetch it and handle its links. */
  method Turn(env: Env, cfg: Config, s: CrawlState) returns (t: CrawlState)
    requires s.queue != []
    ensures t == Step(env, cfg, s)
  {
    var current := s.queue[|s.queue| - 1];
    t := s.(queue := s.queue[..|s.queue| - 1]);
    var normalized := NormalizeDirectoryUrl(current);
    if normalized in t.visited {
      return;
    }
    t := t.(visited := t.visited + {normalized}, log := t.log + [Visit(normalized, current)]);
    var page := env.fetchPage(current);
    if page.None? {
      t := t.(log := t.log + [FetchFailed(current)]);
    } else {
      var links := FetchLinks(page.value);
      t := HandleLinks(env, cfg, current, links, t);
    }
  }

  /**
   * `crawl(base_url, dest_root, dry_run)`, for at most `fuel` turns of its
   * `while queue` loop, starting from the normalised base URL.
   */
  method Crawl(env: Env, baseUrl: string, destRoot: LocalPath, dryRun: bool, files0: map<LocalPath, nat>, fuel: nat)
    returns (final: CrawlState)
    ensures var cfg := Config(NormalizeDirectoryUrl(baseUrl), destRoot, dryRun);
      final == Run(env, cfg, Start(cfg, files0), fuel)
  {
    var cfg := Config(NormalizeDirectoryUrl(baseUrl), destRoot, dryRun);
    final := Start(cfg, files0);
    ghost var goal := Run(env, cfg, final, fuel);
    var turns := 0;
    while turns < fuel && final.queue != []
      invariant turns <= fuel
      invariant Run(env, cfg, final, fuel - turns) == goal
    {
      RunUnfolds(env, cfg, final, fuel - turns);
      final := Turn(env, cfg, final);
      turns := turns + 1;
    }
  }
}
