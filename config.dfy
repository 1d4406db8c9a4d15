/** Per-deployment tracker configuration read from the environment. */
module Config {
  import opened Wrappers
  import opened Strings

  /** The process environment. */
  type Env = map<string, string>

  datatype ProjectConfig = ProjectConfig(apiKey: Option<string>, projectId: Option<string>, teamId: Option<string>)

  /** The variable name `<prefix>_<suffix>`. */
  function EnvKey(prefix: string, suffix: string): (k: string)
    ensures |k| == |prefix| + 1 + |suffix|
    ensures k[..|prefix|] == prefix && k[|prefix|] == '_' && k[|prefix| + 1..] == suffix
  {
    prefix + "_" + suffix
  }

  /** A variable's trimmed value; unset or blank reads as undefined. */
  function ReadTrimmed(env: Env, key: string): (r: Option<string>)
    ensures r.Some? ==> key in env && r.value == Trim(env[key]) && r.value != ""
  {
    if key in env && Trim(env[key]) != "" then Some(Trim(env[key])) else None
  }

  function ResolveProjectConfig(env: Env, prefix: string): ProjectConfig {
    ProjectConfig(
      ReadTrimmed(env, EnvKey(prefix, "API_KEY")),
      ReadTrimmed(env, EnvKey(prefix, "PROJECT_ID")),
      ReadTrimmed(env, EnvKey(prefix, "TEAM_ID")))
  }

  /** Each field comes from its own variable: it is undefined exactly when
      that variable is unset or white space only, and otherwise is the
      variable's trimmed value, non-empty with no white space at its ends. */
  lemma ResolveProjectConfigFields(env: Env, prefix: string)
    ensures var c := ResolveProjectConfig(env, prefix);
      && c.apiKey == ReadTrimmed(env, prefix + "_API_KEY")
      && c.projectId == ReadTrimmed(env, prefix + "_PROJECT_ID")
      && c.teamId == ReadTrimmed(env, prefix + "_TEAM_ID")
    ensures forall key ::
      (ReadTrimmed(env, key).None? <==> key !in env || AllSpace(env[key]))
    ensures forall key :: ReadTrimmed(env, key).Some? ==> Trimmed(ReadTrimmed(env, key).value)
  {
    assert EnvKey(prefix, "API_KEY") == prefix + "_API_KEY";
    assert EnvKey(prefix, "PROJECT_ID") == prefix + "_PROJECT_ID";
    assert EnvKey(prefix, "TEAM_ID") == prefix + "_TEAM_ID";
    forall key ensures (ReadTrimmed(env, key).None? <==> key !in env || AllSpace(env[key])) {
      if key in env { TrimEmptyIffAllSpace(env[key]); }
    }
    forall key | key in env ensures Trimmed(Trim(env[key])) {
      TrimIsTrimmed(env[key]);
    }
  }
}
