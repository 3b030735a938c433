/**
 * The configuration loader (`utils/config.py`): the settings read from the
 * YAML file are overlaid, in place, with the secrets found in the
 * environment, through a fixed table naming for each environment variable
 * the section and key it sets.
 */
module Config {
  import opened Wrappers

  /**
   * A top-level value of the configuration: a section holding string
   * entries, or anything else (a scalar, a list, or the `None` an empty YAML
   * section reads as), of which only its truthiness matters here.
   */
  datatype Section = Table(entries: map<string, string>) | Other(truthy: bool)

  type Sections = map<string, Section>

  /** Python's truthiness of `config.get(name)`: absent and empty are false. */
  predicate Truthy(cfg: Sections, name: string)
  {
    name in cfg && match cfg[name]
      case Table(t) => t != map[]
      case Other(b) => b
  }

  /** One row of `_ENV_MAPPING`: an environment variable and the section and key it sets. */
  datatype Target = Target(envVar: string, section: string, key: string)

  /** `_ENV_MAPPING`, in its declaration order. */
  const EnvMapping: seq<Target> := [
    Target("TWITTER_API_KEY", "twitter", "api_key"),
    Target("TWITTER_API_SECRET", "twitter", "api_secret"),
    Target("TWITTER_ACCESS_TOKEN", "twitter", "access_token"),
    Target("TWITTER_ACCESS_TOKEN_SECRET", "twitter", "access_token_secret"),
    Target("THREADS_APP_ID", "threads", "app_id"),
    Target("THREADS_APP_SECRET", "threads", "app_secret"),
    Target("THREADS_ACCESS_TOKEN", "threads", "access_token"),
    Target("THREADS_USER_ID", "threads", "user_id"),
    Target("YOUTUBE_CLIENT_ID", "youtube", "client_id"),
    Target("YOUTUBE_CLIENT_SECRET", "youtube", "client_secret"),
    Target("AWS_S3_BUCKET", "s3", "bucket_name"),
    Target("AWS_S3_REGION", "s3", "region")
  ]

  /** `os.environ.get(name)` is truthy: set and not empty. */
  predicate IsSet(env: map<string, string>, name: string)
  {
    name in env && env[name] != ""
  }

  /** The entry at `section`/`key`, when the section is a table holding it. */
  function Lookup(cfg: Sections, section: string, key: string): (r: Option<string>)
    ensures r.Some? <==> section in cfg && cfg[section].Table? && key in cfg[section].entries
  {
    if section in cfg && cfg[section].Table? && key in cfg[section].entries then
      Some(cfg[section].entries[key])
    else None
  }

  /**
   * The configuration after some rows of the table, and the section whose
   * value was not a table when a row had to write into it (`setdefault`
   * then returns that value and the item assignment raises `TypeError`).
   */
  datatype Outcome = Outcome(cfg: Sections, failedAt: Option<string>)

  /** One row: an unset variable changes nothing; a set one writes its key, creating the section when missing. */
  function Step(cfg: Sections, env: map<string, string>, t: Target): Outcome
  {
    if !IsSet(env, t.envVar) then Outcome(cfg, None)
    else if t.section !in cfg then Outcome(cfg[t.section := Table(map[t.key := env[t.envVar]])], None)
    else match cfg[t.section]
      case Table(entries) => Outcome(cfg[t.section := Table(entries[t.key := env[t.envVar]])], None)
      case Other(_) => Outcome(cfg, Some(t.section))
  }

  /** The rows applied in order, stopping at the first failure. */
  function Overlay(cfg: Sections, env: map<string, string>, rows: seq<Target>): Outcome
  {
    if rows == [] then Outcome(cfg, None)
    else
      var o := Overlay(cfg, env, rows[..|rows| - 1]);
      if o.failedAt.Some? then o else Step(o.cfg, env, rows[|rows| - 1])
  }

  /** The configuration dict, which `_inject_env_secrets` updates in place. */
  class ConfigDict {
    var sections: Sections

    constructor (initial: Sections)
      ensures sections == initial
    {
      sections := initial;
    }

    /**
     * `_inject_env_secrets`: the rows of the table, in order; the dict is
     * changed in place, and when a row hits a section that is not a table
     * the `TypeError` leaves the rows before it applied.
     */
    method InjectEnvSecrets(env: map<string, string>) returns (r: Result<bool, string>)
      modifies this
      ensures sections == Overlay(old(sections), env, EnvMapping).cfg
      ensures r.Err? <==> Overlay(old(sections), env, EnvMapping).failedAt.Some?
      ensures r.Err? ==> r.error == Overlay(old(sections), env, EnvMapping).failedAt.value
    {
      ghost var start := sections;
      for i := 0 to |EnvMapping|
        invariant Overlay(start, env, EnvMapping[..i]) == Outcome(sections, None)
      {
        assert EnvMapping[..i + 1][..i] == EnvMapping[..i];
        var t := EnvMapping[i];
        if IsSet(env, t.envVar) {
          if t.section !in sections {
            sections := sections[t.section := Table(map[t.key := env[t.envVar]])];
          } else if sections[t.section].Table? {
            sections := sections[t.section := Table(sections[t.section].entries[t.key := env[t.envVar]])];
          } else {
            assert Overlay(start, env, EnvMapping[..i + 1]).failedAt == Some(t.section);
            TailFailed(start, env, EnvMapping, i + 1);
            assert EnvMapping[..|EnvMapping|] == EnvMapping;
            return Err(t.section);
          }
        }
      }
      assert EnvMapping[..|EnvMapping|] == EnvMapping;
      return Ok(true);
    }
  }

  /** Once a row has failed, the later rows change nothing. */
  lemma {:induction false} TailFailed(cfg: Sections, env: map<string, string>, rows: seq<Target>, i: nat)
    requires i <= |rows| && Overlay(cfg, env, rows[..i]).failedAt.Some?
    ensures Overlay(cfg, env, rows) == Overlay(cfg, env, rows[..i])
    decreases |rows| - i
  {
    if i < |rows| {
      assert rows[..i + 1][..i] == rows[..i];
      TailFailed(cfg, env, rows, i + 1);
    } else {
      assert rows[..i] == rows;
    }
  }

  /** What the configuration file held: a mapping, or nothing (an empty file reads as `None`). */
  datatype YamlDoc = Mapping(sections: Sections) | Empty

  /**
   * `load_config`: the file's mapping, or an empty dict when the file does
   * not exist or holds nothing, overlaid with the environment.
   */
  method LoadConfig(file: Option<YamlDoc>, env: map<string, string>) returns (c: ConfigDict, r: Result<bool, string>)
    ensures fresh(c)
    ensures var start := if file.Some? && file.value.Mapping? then file.value.sections else map[];
      c.sections == Overlay(start, env, EnvMapping).cfg && (r.Err? <==> Overlay(start, env, EnvMapping).failedAt.Some?)
  {
    var start: Sections := map[];
    if file.Some? && file.value.Mapping? {
      start := file.value.sections;
    }
    c := new ConfigDict(start);
    r := c.InjectEnvSecrets(env);
  }

  // ----- properties of the overlay -----

  /** The sections a list of rows may write into. */
  function TargetSections(rows: seq<Target>): set<string>
  {
    set i | 0 <= i < |rows| :: rows[i].section
  }

  /**
   * The overlay fails exactly when some row with a set variable names a
   * section that the original configuration holds as something other than
   * a table: a section the overlay creates is always a table.
   */
  lemma {:induction false} OverlayFails(cfg: Sections, env: map<string, string>, rows: seq<Target>)
    ensures Overlay(cfg, env, rows).failedAt.Some? <==>
      exists i :: 0 <= i < |rows| && IsSet(env, rows[i].envVar) && rows[i].section in cfg && cfg[rows[i].section].Other?
    ensures forall s :: s in cfg ==> s in Overlay(cfg, env, rows).cfg
    ensures forall s :: s in Overlay(cfg, env, rows).cfg ==>
      (Overlay(cfg, env, rows).cfg[s].Other? <==> s in cfg && cfg[s].Other?)
  {
    if rows != [] {
      var init := rows[..|rows| - 1];
      OverlayFails(cfg, env, init);
      forall i | 0 <= i < |init| ensures init[i] == rows[i] { }
    }
  }

  /** A section no row names is left exactly as it was, present or absent. */
  lemma {:induction false} OtherSectionsUnchanged(cfg: Sections, env: map<string, string>, rows: seq<Target>, s: string)
    requires s !in TargetSections(rows)
    ensures s in Overlay(cfg, env, rows).cfg <==> s in cfg
    ensures s in cfg ==> Overlay(cfg, env, rows).cfg[s] == cfg[s]
  {
    if rows != [] {
      var init := rows[..|rows| - 1];
      assert rows[|rows| - 1].section in TargetSections(rows);
      assert TargetSections(init) <= TargetSections(rows) by {
        forall x | x in TargetSections(init) ensures x in TargetSections(rows) {
          var i :| 0 <= i < |init| && init[i].section == x;
          assert rows[i] == init[i];
        }
      }
      OtherSectionsUnchanged(cfg, env, init, s);
    }
  }

  /** An entry no row names keeps its value (or its absence). */
  lemma {:induction false} OtherKeysUnchanged(cfg: Sections, env: map<string, string>, rows: seq<Target>, s: string, k: string)
    requires forall i :: 0 <= i < |rows| ==> rows[i].section != s || rows[i].key != k
    ensures Lookup(Overlay(cfg, env, rows).cfg, s, k) == Lookup(cfg, s, k)
  {
    if rows != [] {
      var init := rows[..|rows| - 1];
      forall i | 0 <= i < |init| ensures init[i].section != s || init[i].key != k {
        assert init[i] == rows[i];
      }
      OtherKeysUnchanged(cfg, env, init, s, k);
    }
  }

  /** No two rows write the same entry. */
  predicate DistinctTargets(rows: seq<Target>)
  {
    forall i, j :: 0 <= i < j < |rows| ==> rows[i].section != rows[j].section || rows[i].key != rows[j].key
  }

  /**
   * When the overlay succeeds, a row's entry holds the environment value
   * when its variable is set (the section created if it was missing), and
   * keeps its former value (or absence) when it is unset or empty.
   */
  lemma {:induction false} RowApplied(cfg: Sections, env: map<string, string>, rows: seq<Target>, i: nat)
    requires DistinctTargets(rows) && i < |rows|
    requires Overlay(cfg, env, rows).failedAt.None?
    ensures IsSet(env, rows[i].envVar) ==> Lookup(Overlay(cfg, env, rows).cfg, rows[i].section, rows[i].key) == Some(env[rows[i].envVar])
    ensures !IsSet(env, rows[i].envVar) ==> Lookup(Overlay(cfg, env, rows).cfg, rows[i].section, rows[i].key) == Lookup(cfg, rows[i].section, rows[i].key)
  {
    var init := rows[..|rows| - 1];
    var t := rows[|rows| - 1];
    if i == |rows| - 1 {
      forall j | 0 <= j < |init| ensures init[j].section != t.section || init[j].key != t.key {
        assert init[j] == rows[j];
      }
      OtherKeysUnchanged(cfg, env, init, t.section, t.key);
    } else {
      assert init[i] == rows[i];
      assert DistinctTargets(init) by {
        forall a, b | 0 <= a < b < |init| ensures init[a].section != init[b].section || init[a].key != init[b].key {
          assert init[a] == rows[a] && init[b] == rows[b];
        }
      }
      RowApplied(cfg, env, init, i);
    }
  }

  /** With no variable set, nothing changes and nothing fails. */
  lemma {:induction false} EmptyEnvironment(cfg: Sections, rows: seq<Target>)
    ensures Overlay(cfg, map[], rows) == Outcome(cfg, None)
  {
    if rows != [] {
      EmptyEnvironment(cfg, rows[..|rows| - 1]);
    }
  }

  /** The twelve rows of the table write twelve different entries. */
  lemma EnvMappingDistinct()
    ensures DistinctTargets(EnvMapping)
  {
  }

  /**
   * When every section the table writes into is absent or a table, the
   * overlay succeeds, and each mapped entry holds its environment value when
   * the variable is set and is left as it was otherwise.
   */
  lemma SecretsOverride(cfg: Sections, env: map<string, string>, i: nat)
    requires i < |EnvMapping|
    requires forall s :: s in cfg && s in TargetSections(EnvMapping) ==> cfg[s].Table?
    ensures Overlay(cfg, env, EnvMapping).failedAt.None?
    ensures var t := EnvMapping[i];
      Lookup(Overlay(cfg, env, EnvMapping).cfg, t.section, t.key)
        == if IsSet(env, t.envVar) then Some(env[t.envVar]) else Lookup(cfg, t.section, t.key)
  {
    OverlayFails(cfg, env, EnvMapping);
    EnvMappingDistinct();
    RowApplied(cfg, env, EnvMapping, i);
  }
}
