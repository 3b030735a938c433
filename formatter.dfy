/**
 * The content formatter (`formatter/content_formatter.py`): a registry of
 * per-platform rules looked up by platform name, with the default rule
 * "text, blank line, hashtags" as the fallback.
 */
module Formatter {
  import opened Wrappers
  import opened Text
  import opened ContentModel

  /** A formatting rule: the `_format_<platform>` methods of the formatter. */
  type Rule = Content -> string

  /** Platform name to rule: the attribute lookup `getattr(self, "_format_" + platform)`. */
  type Registry = map<string, Rule>

  /** Each tag prefixed with `#`, in input order. */
  function HashtagWords(tags: seq<string>): (r: seq<string>)
    ensures |r| == |tags| && forall i :: 0 <= i < |tags| ==> r[i] == "#" + tags[i]
  {
    seq(|tags|, i requires 0 <= i < |tags| => "#" + tags[i])
  }

  /** `" ".join(f"#{tag}" for tag in tags)`. */
  function Hashtags(tags: seq<string>): string
  {
    Join(HashtagWords(tags), " ")
  }

  predicate HasTags(c: Content)
  {
    c.tags.Some? && c.tags.value != []
  }

  /**
   * The default rule: the text, then (only when there are tags) a blank line
   * and the hashtags. The text itself is never cut or altered.
   */
  function FormatDefault(c: Content): (r: string)
    ensures StartsWith(r, c.text)
    ensures !HasTags(c) ==> r == c.text
    ensures HasTags(c) ==> r[|c.text|..] == "\n\n" + Hashtags(c.tags.value)
  {
    if HasTags(c) then c.text + "\n\n" + Hashtags(c.tags.value) else c.text
  }

  /** The rules the formatter defines: only `_format_default`. */
  function BuiltinRules(): Registry
  {
    map["default" := FormatDefault]
  }

  /** `format_for_platform`: the registered rule for the platform, else the default rule. */
  function FormatForPlatform(rules: Registry, c: Content, platform: string): (r: string)
  {
    if platform in rules then rules[platform](c) else FormatDefault(c)
  }

  /** A rule registered under `p` is the one used for platform `p`. */
  lemma RegisteredRuleUsed(rules: Registry, p: string, rule: Rule, c: Content)
    ensures FormatForPlatform(rules[p := rule], c, p) == rule(c)
  {
  }

  /** Registering a rule under one name changes nothing for any other platform. */
  lemma RegistrationIsLocal(rules: Registry, p: string, rule: Rule, q: string, c: Content)
    requires q != p
    ensures FormatForPlatform(rules[p := rule], c, q) == FormatForPlatform(rules, c, q)
  {
  }

  /** A platform with no registered rule gets the default rule. */
  lemma UnregisteredFallsBack(rules: Registry, p: string, c: Content)
    requires p !in rules
    ensures FormatForPlatform(rules, c, p) == FormatDefault(c)
  {
  }

  /** With the formatter's own rules every platform name, known or not, gets the default rule. */
  lemma BuiltinIsDefaultEverywhere(c: Content, p: string)
    ensures FormatForPlatform(BuiltinRules(), c, p) == FormatDefault(c)
  {
  }

  /**
   * Splitting at a one-character separator undoes joining with it, when no
   * piece contains that character.
   */
  lemma {:induction false} SplitJoinChar(ps: seq<string>, sep: string)
    requires |sep| == 1 && |ps| >= 1
    requires forall i :: 0 <= i < |ps| ==> sep[0] !in ps[i]
    ensures Split(Join(ps, sep), sep) == ps
  {
    if |ps| == 1 {
      assert Find(ps[0], sep).None?;
    } else {
      var p, rest := ps[0], Join(ps[1..], sep);
      var s := Join(ps, sep);
      assert s == p + sep + rest;
      assert OccursAt(s, sep, |p|);
      forall j | 0 <= j < |p| ensures !OccursAt(s, sep, j) {
        assert s[j] == p[j];
      }
      assert Find(s, sep) == Some(|p|);
      assert s[..|p|] == p && s[|p| + 1..] == rest;
      SplitJoinChar(ps[1..], sep);
    }
  }

  /**
   * The hashtag line can be read back: split at single spaces it gives
   * `#tag` for each tag, in order, when no tag contains a space.
   */
  lemma HashtagsReadBack(tags: seq<string>)
    requires |tags| >= 1 && forall i :: 0 <= i < |tags| ==> ' ' !in tags[i]
    ensures Split(Hashtags(tags), " ") == HashtagWords(tags)
  {
    var ws := HashtagWords(tags);
    forall i | 0 <= i < |ws| ensures ' ' !in ws[i] {
      assert ws[i] == "#" + tags[i];
    }
    SplitJoinChar(ws, " ");
  }

  /** The example the formatter is known by: two tags after a blank line. */
  lemma DefaultWithTwoTags()
    ensures FormatDefault(Make(Sns, "Hello world").(tags := Some(["python", "dev"])))
      == "Hello world\n\n#python #dev"
  {
    assert "#" + "python" == "#python" && "#" + "dev" == "#dev";
    assert HashtagWords(["python", "dev"]) == ["#python", "#dev"];
  }

  // ----- The publishers' calls into the formatter -----

  /**
   * As written, the X and Threads publishers do not go through
   * `format_for_platform`: they call the attributes `_format_x` and
   * `_format_threads` directly, and the formatter defines neither, so the
   * call raises `AttributeError` whatever the content.
   */
  function DirectRuleCall(rules: Registry, c: Content, platform: string): (r: Result<string, string>)
    ensures r.Ok? <==> platform in rules
  {
    if platform in rules then Ok(rules[platform](c))
    else Err("'ContentFormatter' object has no attribute '_format_" + platform + "'")
  }

  /** The direct call fails for both publishers, for every content. */
  lemma PlatformRulesMissing(c: Content)
    ensures DirectRuleCall(BuiltinRules(), c, "x").Err?
    ensures DirectRuleCall(BuiltinRules(), c, "threads").Err?
  {
  }

  /**
   * The text a publisher posts: the formatter's dispatch for its platform,
   * which falls back to the default rule.
   */
  function PlatformText(c: Content, platform: string): (r: string)
    ensures r == FormatDefault(c)
  {
    BuiltinIsDefaultEverywhere(c, platform);
    FormatForPlatform(BuiltinRules(), c, platform)
  }

  /** The X publisher's expected output for text "Hello world" with the tag "dev". */
  lemma PlatformTextForX()
    ensures PlatformText(Make(Sns, "Hello world").(tags := Some(["dev"])), "x") == "Hello world\n\n#dev"
  {
    assert "#" + "dev" == "#dev";
    assert HashtagWords(["dev"]) == ["#dev"];
  }
}
