/**
 * The combined blog and SNS workflow (`workflows/publish_workflow.py`): a
 * folder is loaded, the blog post is published (or its URL made up in a dry
 * run), and the SNS text, with the blog URL appended, goes to each listed
 * platform that has a configured publisher. The blog publisher and the SNS
 * publishers are represented by their outcomes: the URL they return, or the
 * message of the exception they raise.
 */
module Workflow {
  import opened Wrappers
  import opened ContentModel
  import Dict
  import Config
  import Loader

  /** Where `ContentLoader()` looks for folders by default. */
  const ContentRoot := "blog-content"

  /** `result["blog"]`: the made-up dry-run entry, or the publisher's result. */
  datatype BlogEntry = BlogDryRun(url: string) | BlogPublished(url: string)

  /** An entry of `result["sns"]`. */
  datatype SnsEntry = SnsDryRun | SnsPublished(url: string) | SnsFailed(error: string)

  /** The result dict: the blog entry (`None` until set) and the SNS entries in insertion order. */
  datatype Report = Report(blog: Option<BlogEntry>, sns: Dict.Dict<SnsEntry>)

  /** The blog publisher's authenticate, validate and publish on a record: the URL, or the first exception's message. */
  type BlogRun = Content -> Result<string, string>

  /** The same for the SNS publisher registered under a platform name. */
  type SnsRun = (string, Content) -> Result<string, string>

  /** The publishers `__init__` registers: `x` for a truthy `twitter` section, `threads` for a truthy `threads` one. */
  function Registry(cfg: Config.Sections): seq<string>
  {
    (if Config.Truthy(cfg, "twitter") then ["x"] else []) + (if Config.Truthy(cfg, "threads") then ["threads"] else [])
  }

  lemma RegistryIff(cfg: Config.Sections)
    ensures "x" in Registry(cfg) <==> Config.Truthy(cfg, "twitter")
    ensures "threads" in Registry(cfg) <==> Config.Truthy(cfg, "threads")
    ensures forall p :: p in Registry(cfg) ==> p == "x" || p == "threads"
  {
  }

  /** The dry-run blog URL: the record's slug, or `test` when it has none. */
  function DryRunUrl(c: Content): (r: string)
    ensures |r| >= 27 && r[..26] == "https://example.com/posts/" && r[|r| - 1] == '/'
    ensures c.slug.Some? && c.slug.value != "" ==> r[26..|r| - 1] == c.slug.value
    ensures c.slug.None? || c.slug.value == "" ==> r == "https://example.com/posts/test/"
  {
    "https://example.com/posts/" + (if c.slug.Some? && c.slug.value != "" then c.slug.value else "test") + "/"
  }

  /** The SNS text: with a blog URL, followed by a blank line, a link sign and the URL; otherwise unchanged. */
  function LinkedText(snsText: string, blogUrl: Option<string>): (r: string)
    ensures blogUrl.None? || blogUrl.value == "" ==> r == snsText
    ensures blogUrl.Some? && blogUrl.value != "" ==>
      |r| == |snsText| + 4 + |blogUrl.value| && r[..|snsText|] == snsText && r[|r| - |blogUrl.value|..] == blogUrl.value
      && r[|snsText|..|snsText| + 4] == "\n\n\U{1F517} "
  {
    if blogUrl.Some? && blogUrl.value != "" then snsText + "\n\n\U{1F517} " + blogUrl.value else snsText
  }

  /** The record the SNS publishers receive: SNS kind, the linked text and the folder's platforms. */
  function SnsContent(text: string, platforms: seq<string>): (c: Content)
    ensures c.contentType == Sns && c.text == text && c.platforms == platforms
    ensures c.imagePaths.None? && c.tags.None?
  {
    Make(Sns, text).(platforms := platforms)
  }

  /** The blog phase: its entry, the URL it yields, and whether the workflow stops there. */
  datatype BlogPhase = BlogPhase(entry: Option<BlogEntry>, url: Option<string>, stop: bool)

  function BlogStep(c: Content, dryRun: bool, skipBlog: bool, blog: BlogRun): BlogPhase
  {
    if skipBlog then BlogPhase(None, None, false)
    else if dryRun then BlogPhase(Some(BlogDryRun(DryRunUrl(c))), Some(DryRunUrl(c)), false)
    else match blog(c)
      case Ok(url) => BlogPhase(Some(BlogPublished(url)), Some(url), false)
      case Err(_) => BlogPhase(None, None, true)
  }

  /** One configured platform's entry. */
  function EntryFor(p: string, dryRun: bool, c: Content, sns: SnsRun): SnsEntry
  {
    if dryRun then SnsDryRun
    else match sns(p, c)
      case Ok(url) => SnsPublished(url)
      case Err(e) => SnsFailed(e)
  }

  /** The SNS entries after the listed platforms, in order; unconfigured ones are skipped. */
  function SnsEntries(registry: seq<string>, platforms: seq<string>, dryRun: bool, c: Content, sns: SnsRun): Dict.Dict<SnsEntry>
  {
    if platforms == [] then []
    else
      var d := SnsEntries(registry, platforms[..|platforms| - 1], dryRun, c, sns);
      var p := platforms[|platforms| - 1];
      if p in registry then Dict.Put(d, p, EntryFor(p, dryRun, c, sns)) else d
  }

  /**
   * The whole result: the blog phase, then, unless it failed, the SNS phase
   * when it is not skipped and the SNS text is not empty.
   */
  function Run(registry: seq<string>, data: Loader.Loaded, dryRun: bool, skipBlog: bool, skipSns: bool,
               blog: BlogRun, sns: SnsRun): Report
  {
    var b := BlogStep(data.blogContent, dryRun, skipBlog, blog);
    if b.stop then Report(None, [])
    else if skipSns || data.snsText == "" then Report(b.entry, [])
    else
      var c := SnsContent(LinkedText(data.snsText, b.url), data.platforms);
      Report(b.entry, SnsEntries(registry, data.platforms, dryRun, c, sns))
  }

  class PublishWorkflow {
    const config: Config.Sections
    /** The keys of `self.publishers`, in insertion order. */
    var publishers: seq<string>

    constructor (config: Config.Sections)
      ensures this.config == config && publishers == Registry(config)
    {
      this.config := config;
      publishers := [];
      if Config.Truthy(config, "twitter") {
        publishers := publishers + ["x"];
      }
      if Config.Truthy(config, "threads") {
        publishers := publishers + ["threads"];
      }
    }

    /**
     * The SNS loop of `publish_from_folder`: each listed platform in turn,
     * skipped without a publisher, marked `dry_run` in a dry run, otherwise
     * given its publisher's result or error; a failure does not stop the loop.
     */
    method PublishSns(c: Content, platforms: seq<string>, dryRun: bool, sns: SnsRun) returns (entries: Dict.Dict<SnsEntry>)
      ensures entries == SnsEntries(publishers, platforms, dryRun, c, sns)
    {
      entries := [];
      for i := 0 to |platforms|
        invariant entries == SnsEntries(publishers, platforms[..i], dryRun, c, sns)
      {
        assert platforms[..i + 1][..i] == platforms[..i];
        var p := platforms[i];
        if p !in publishers {
          continue;
        }
        if dryRun {
          entries := Dict.Put(entries, p, SnsDryRun);
        } else {
          var outcome := sns(p, c);
          match outcome
          case Ok(url) => entries := Dict.Put(entries, p, SnsPublished(url));
          case Err(e) => entries := Dict.Put(entries, p, SnsFailed(e));
        }
      }
      assert platforms[..|platforms|] == platforms;
    }

    /** The phases after loading: the blog phase, then the SNS phase. */
    method RunLoaded(loaded: Loader.Loaded, dryRun: bool, skipBlog: bool, skipSns: bool, blog: BlogRun, sns: SnsRun)
      returns (r: Report)
      ensures r == Run(publishers, loaded, dryRun, skipBlog, skipSns, blog, sns)
    {
      var blogEntry: Option<BlogEntry> := None;
      var blogUrl: Option<string> := None;
      if !skipBlog {
        if dryRun {
          blogUrl := Some(DryRunUrl(loaded.blogContent));
          blogEntry := Some(BlogDryRun(blogUrl.value));
        } else {
          var outcome := blog(loaded.blogContent);
          if outcome.Err? {
            return Report(None, []);
          }
          blogUrl := Some(outcome.value);
          blogEntry := Some(BlogPublished(outcome.value));
        }
      }
      var entries: Dict.Dict<SnsEntry> := [];
      if !skipSns && loaded.snsText != "" {
        entries := PublishSns(SnsContent(LinkedText(loaded.snsText, blogUrl), loaded.platforms), loaded.platforms, dryRun, sns);
      }
      r := Report(blogEntry, entries);
    }

    /**
     * `publish_from_folder`: a load failure propagates; otherwise the
     * result is the one `Run` describes for the loaded folder.
     */
    method PublishFromFolder(fs: Loader.FileSystem, now: DateTime, folder: string,
                             dryRun: bool, skipBlog: bool, skipSns: bool, blog: BlogRun, sns: SnsRun)
      returns (data: Result<Loader.Loaded, Loader.LoadError>, r: Result<Report, Loader.LoadError>)
      ensures data.Err? ==> r == Err(data.error)
      ensures data.Ok? ==> r == Ok(Run(publishers, data.value, dryRun, skipBlog, skipSns, blog, sns))
    {
      data := Loader.LoadFromFolder(fs, ContentRoot, folder, now);
      if data.Err? {
        return data, Err(data.error);
      }
      var report := RunLoaded(data.value, dryRun, skipBlog, skipSns, blog, sns);
      r := Ok(report);
    }
  }

  // ----- properties -----

  /**
   * The SNS entries are keyed by exactly the listed platforms that have a
   * publisher, each once; a platform's entry is its own outcome, whatever
   * the other platforms' outcomes were.
   */
  lemma {:induction false} SnsEntriesKeys(registry: seq<string>, platforms: seq<string>, dryRun: bool, c: Content, sns: SnsRun)
    ensures Dict.Distinct(Dict.Keys(SnsEntries(registry, platforms, dryRun, c, sns)))
    ensures forall p :: p in Dict.Keys(SnsEntries(registry, platforms, dryRun, c, sns)) <==> p in platforms && p in registry
    ensures forall p :: p in platforms && p in registry ==>
      Dict.Get(SnsEntries(registry, platforms, dryRun, c, sns), p) == Some(EntryFor(p, dryRun, c, sns))
  {
    if platforms != [] {
      var init := platforms[..|platforms| - 1];
      var last := platforms[|platforms| - 1];
      var d := SnsEntries(registry, init, dryRun, c, sns);
      SnsEntriesKeys(registry, init, dryRun, c, sns);
      assert platforms == init + [last];
      if last in registry {
        Dict.PutKeys(d, last, EntryFor(last, dryRun, c, sns));
        Dict.PutDistinct(d, last, EntryFor(last, dryRun, c, sns));
      }
    }
  }

  /** A failed or skipped SNS platform does not stop the others: each configured listed platform is reported. */
  lemma FailureDoesNotStop(registry: seq<string>, data: Loader.Loaded, skipBlog: bool, blog: BlogRun, sns: SnsRun, p: string)
    requires !BlogStep(data.blogContent, false, skipBlog, blog).stop && data.snsText != ""
    requires p in data.platforms && p in registry
    ensures var r := Run(registry, data, false, skipBlog, false, blog, sns);
      var c := SnsContent(LinkedText(data.snsText, BlogStep(data.blogContent, false, skipBlog, blog).url), data.platforms);
      Dict.Get(r.sns, p) == Some(match sns(p, c) case Ok(url) => SnsPublished(url) case Err(e) => SnsFailed(e))
  {
    var c := SnsContent(LinkedText(data.snsText, BlogStep(data.blogContent, false, skipBlog, blog).url), data.platforms);
    SnsEntriesKeys(registry, data.platforms, false, c, sns);
  }

  /** The SNS result only has entries for listed platforms with a configured publisher. */
  lemma SnsKeysConfigured(registry: seq<string>, data: Loader.Loaded, dryRun: bool, skipBlog: bool, skipSns: bool,
                          blog: BlogRun, sns: SnsRun, p: string)
    requires p in Dict.Keys(Run(registry, data, dryRun, skipBlog, skipSns, blog, sns).sns)
    ensures p in data.platforms && p in registry
  {
    var b := BlogStep(data.blogContent, dryRun, skipBlog, blog);
    var c := SnsContent(LinkedText(data.snsText, b.url), data.platforms);
    SnsEntriesKeys(registry, data.platforms, dryRun, c, sns);
  }

  /** A failed live blog phase ends the workflow with no blog entry and no SNS entries. */
  lemma BlogFailureStops(registry: seq<string>, data: Loader.Loaded, skipSns: bool, blog: BlogRun, sns: SnsRun)
    requires blog(data.blogContent).Err?
    ensures Run(registry, data, false, false, skipSns, blog, sns) == Report(None, [])
  {
  }

  /** Without an SNS phase (skipped, or no SNS text) there are no SNS entries. */
  lemma NoSnsPhase(registry: seq<string>, data: Loader.Loaded, dryRun: bool, skipBlog: bool, skipSns: bool, blog: BlogRun, sns: SnsRun)
    requires skipSns || data.snsText == ""
    ensures Run(registry, data, dryRun, skipBlog, skipSns, blog, sns).sns == []
  {
  }

  /** In a dry run every SNS entry is `dry_run`: no publisher is consulted. */
  lemma {:induction false} DryRunEntries(registry: seq<string>, platforms: seq<string>, c: Content, sns: SnsRun, sns': SnsRun)
    ensures SnsEntries(registry, platforms, true, c, sns) == SnsEntries(registry, platforms, true, c, sns')
    ensures forall i :: 0 <= i < |SnsEntries(registry, platforms, true, c, sns)| ==>
      SnsEntries(registry, platforms, true, c, sns)[i].1 == SnsDryRun
  {
    if platforms != [] {
      var init := platforms[..|platforms| - 1];
      DryRunEntries(registry, init, c, sns, sns');
      var last := platforms[|platforms| - 1];
      if last in registry {
        DryRunPut(SnsEntries(registry, init, true, c, sns), last);
      }
    }
  }

  lemma {:induction false} DryRunPut(d: Dict.Dict<SnsEntry>, k: string)
    requires forall i :: 0 <= i < |d| ==> d[i].1 == SnsDryRun
    ensures forall i :: 0 <= i < |Dict.Put(d, k, SnsDryRun)| ==> Dict.Put(d, k, SnsDryRun)[i].1 == SnsDryRun
  {
    if d != [] && d[0].0 != k {
      DryRunPut(d[1..], k);
      assert Dict.Put(d, k, SnsDryRun) == [d[0]] + Dict.Put(d[1..], k, SnsDryRun);
    }
  }

  /**
   * A dry run consults neither the blog publisher nor any SNS publisher: the
   * result is the same whatever they would do, and the blog entry, when the
   * blog phase runs, is the made-up URL.
   */
  lemma DryRunIndependent(registry: seq<string>, data: Loader.Loaded, skipBlog: bool, skipSns: bool,
                          blog: BlogRun, sns: SnsRun, blog': BlogRun, sns': SnsRun)
    ensures Run(registry, data, true, skipBlog, skipSns, blog, sns) == Run(registry, data, true, skipBlog, skipSns, blog', sns')
    ensures !skipBlog ==> Run(registry, data, true, skipBlog, skipSns, blog, sns).blog == Some(BlogDryRun(DryRunUrl(data.blogContent)))
  {
    var b := BlogStep(data.blogContent, true, skipBlog, blog);
    var c := SnsContent(LinkedText(data.snsText, b.url), data.platforms);
    DryRunEntries(registry, data.platforms, c, sns, sns');
  }
}
