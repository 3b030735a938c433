/**
 * The `sns post` command (`main.py`): the record is built from the command
 * line; a dry run (the default) only shows the formatted text, a live run
 * tries each target platform in turn, records one entry per target and
 * counts the outcomes. Each publisher's construct, authenticate, validate
 * and publish is represented by its outcome: the result URL, or the message
 * of the exception raised.
 */
module Cli {
  import opened Wrappers
  import opened ContentModel
  import Formatter
  import Loader

  /** The keys of `PLATFORM_PUBLISHERS`, in order. */
  const KnownPlatforms: seq<string> := ["x", "threads"]

  /** `--platforms`: the comma-split, trimmed list; absent or empty means no list. */
  function PlatformList(option: Option<string>): (r: seq<string>)
    ensures option.None? || option.value == "" ==> r == []
    ensures option.Some? && option.value != "" ==> r == Loader.CommaList(option.value) && r != []
  {
    if option.Some? && option.value != "" then Loader.CommaList(option.value) else []
  }

  /** The record `post` builds: SNS kind, the text, the platforms, and the image when one is given. */
  function PostContent(text: string, image: Option<string>, platforms: seq<string>): (c: Content)
    ensures c.contentType == Sns && c.text == text && c.platforms == platforms
    ensures c.imagePaths == (if image.Some? && image.value != "" then Some([image.value]) else None)
    ensures c.title.None? && c.tags.None?
  {
    Make(Sns, text).(platforms := platforms,
                     imagePaths := if image.Some? && image.value != "" then Some([image.value]) else None)
  }

  /** The live targets: the given list, or every known platform when it is empty. */
  function Targets(platforms: seq<string>): (r: seq<string>)
    ensures platforms != [] ==> r == platforms
    ensures platforms == [] ==> r == KnownPlatforms
  {
    if platforms != [] then platforms else KnownPlatforms
  }

  datatype Status = Success(url: string) | Error(error: string) | Skipped

  /** An entry of `results`. */
  datatype Entry = Entry(platform: string, status: Status)

  /** The publisher registered for a platform, from construction to publishing. */
  type PublishRun = (string, Content) -> Result<string, string>

  /** A target's entry: skipped when no publisher is known for it, otherwise its publisher's success or error. */
  function EntryFor(platform: string, c: Content, run: PublishRun): (e: Entry)
    ensures e.platform == platform
    ensures e.status.Skipped? <==> platform !in KnownPlatforms
    ensures platform in KnownPlatforms ==> (e.status.Success? <==> run(platform, c).Ok?)
  {
    if platform !in KnownPlatforms then Entry(platform, Skipped)
    else match run(platform, c)
      case Ok(url) => Entry(platform, Success(url))
      case Err(e) => Entry(platform, Error(e))
  }

  function Successes(rs: seq<Entry>): nat
  {
    if rs == [] then 0 else Successes(rs[..|rs| - 1]) + (if rs[|rs| - 1].status.Success? then 1 else 0)
  }

  function Failures(rs: seq<Entry>): nat
  {
    if rs == [] then 0 else Failures(rs[..|rs| - 1]) + (if rs[|rs| - 1].status.Error? then 1 else 0)
  }

  function Skips(rs: seq<Entry>): nat
  {
    if rs == [] then 0 else Skips(rs[..|rs| - 1]) + (if rs[|rs| - 1].status.Skipped? then 1 else 0)
  }

  /** Every entry is counted exactly once: success, error or skipped. */
  lemma {:induction false} TallyTotal(rs: seq<Entry>)
    ensures Successes(rs) + Failures(rs) + Skips(rs) == |rs|
  {
    if rs != [] {
      TallyTotal(rs[..|rs| - 1]);
    }
  }

  /** What `post` ends with: the dry-run text, or the entries and the three counts. */
  datatype PostOutcome =
    | DryRunShown(formatted: string)
    | Posted(results: seq<Entry>, success: nat, failed: nat, skipped: nat)

  /** The counting at the end of `post`. */
  method Tally(results: seq<Entry>) returns (success: nat, failed: nat, skipped: nat)
    ensures success == Successes(results) && failed == Failures(results) && skipped == Skips(results)
    ensures success + failed + skipped == |results|
  {
    success, failed, skipped := 0, 0, 0;
    for i := 0 to |results|
      invariant success == Successes(results[..i]) && failed == Failures(results[..i]) && skipped == Skips(results[..i])
    {
      assert results[..i + 1][..i] == results[..i];
      match results[i].status
      case Success(_) => success := success + 1;
      case Error(_) => failed := failed + 1;
      case Skipped => skipped := skipped + 1;
    }
    assert results[..|results|] == results;
    TallyTotal(results);
  }

  /** The loop over the targets: one entry per target, in order, whatever the earlier outcomes. */
  method PublishEach(targets: seq<string>, c: Content, run: PublishRun) returns (results: seq<Entry>)
    ensures |results| == |targets|
    ensures forall i :: 0 <= i < |targets| ==> results[i] == EntryFor(targets[i], c, run)
  {
    results := [];
    for i := 0 to |targets|
      invariant |results| == i
      invariant forall j :: 0 <= j < i ==> results[j] == EntryFor(targets[j], c, run)
    {
      var platform := targets[i];
      if platform !in KnownPlatforms {
        results := results + [Entry(platform, Skipped)];
        continue;
      }
      var outcome := run(platform, c);
      match outcome
      case Ok(url) => results := results + [Entry(platform, Success(url))];
      case Err(e) => results := results + [Entry(platform, Error(e))];
    }
  }

  /**
   * `post`: a dry run shows the text formatted with the default rule and
   * consults no publisher; a live run has one entry per target, in target
   * order, a failure being recorded without stopping the loop, and counts
   * adding up to the number of targets.
   */
  method Post(text: string, image: Option<string>, platforms: Option<string>, dryRun: bool, run: PublishRun)
    returns (r: PostOutcome)
    ensures var c := PostContent(text, image, PlatformList(platforms));
      dryRun ==> r == DryRunShown(Formatter.FormatDefault(c))
    ensures var c := PostContent(text, image, PlatformList(platforms));
      var targets := Targets(PlatformList(platforms));
      !dryRun ==> r.Posted? && |r.results| == |targets|
                  && (forall i :: 0 <= i < |targets| ==> r.results[i] == EntryFor(targets[i], c, run))
    ensures !dryRun ==> r.Posted? && r.success + r.failed + r.skipped == |Targets(PlatformList(platforms))|
    ensures !dryRun ==> r.Posted? && r.success == Successes(r.results) && r.failed == Failures(r.results)
                        && r.skipped == Skips(r.results)
  {
    var platformList := PlatformList(platforms);
    var c := PostContent(text, image, platformList);
    if dryRun {
      Formatter.BuiltinIsDefaultEverywhere(c, "default");
      return DryRunShown(Formatter.FormatForPlatform(Formatter.BuiltinRules(), c, "default"));
    }
    var results := PublishEach(Targets(platformList), c, run);
    var success, failed, skipped := Tally(results);
    r := Posted(results, success, failed, skipped);
  }

  /** Without `--platforms` a live run targets X and then Threads. */
  lemma DefaultTargets(option: Option<string>)
    requires option.None? || option.value == ""
    ensures Targets(PlatformList(option)) == ["x", "threads"]
  {
  }
}
