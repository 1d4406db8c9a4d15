/** Feature flag and settings of the text-generation client. */
module AiClient {
  import opened Wrappers
  import opened Strings
  import opened Config
  import opened Errors

  const FlagVar := "ENABLE_AI"
  const KeyVar := "OPENAI_API_KEY"
  const ModelVar := "OPENAI_MODEL"
  const DefaultModel := "gpt-4o-mini"
  const MissingKeyMessage := "OPENAI_API_KEY is not set in environment variables"

  /** The flag, lower-cased then trimmed, must be "true" or "1". */
  function IsAIEnabled(env: Env): bool {
    FlagVar in env && (Trim(ToLower(env[FlagVar])) == "true" || Trim(ToLower(env[FlagVar])) == "1")
  }

  function GetOpenAIApiKey(env: Env): Option<string> {
    if KeyVar in env then Some(Trim(env[KeyVar])) else None
  }

  function RequireOpenAIApiKey(env: Env): (r: Result<string, Thrown>)
    ensures r.Ok? <==> KeyVar in env && Trim(env[KeyVar]) != ""
    ensures r.Ok? ==> r.value == Trim(env[KeyVar]) && r.value != ""
    ensures r.Err? ==> r.error == PlainError(MissingKeyMessage)
  {
    var key := GetOpenAIApiKey(env);
    if key.None? || key.value == "" then Err(PlainError(MissingKeyMessage)) else Ok(key.value)
  }

  function GetOpenAIModel(env: Env): (m: string)
    ensures m != ""
  {
    var v := if ModelVar in env then Trim(env[ModelVar]) else "";
    if v != "" then v else DefaultModel
  }

  lemma ToLowerAppend(a: string, b: string)
    ensures ToLower(a + b) == ToLower(a) + ToLower(b)
  {
  }

  lemma ToLowerSpaces(a: string)
    requires AllSpace(a)
    ensures ToLower(a) == a
  {
  }

  /** Lower-casing keeps white space at the ends and adds none. */
  lemma LowerTrimmed(word: string)
    requires Trimmed(word) || ToLower(word) == "true" || ToLower(word) == "1"
    ensures Trimmed(ToLower(word))
  {
  }

  /** The flag is off when unset, on for "true" or "1" in any letter case
      with any padding, and off for every other word. */
  lemma AIFlag(env: Env, pad1: string, word: string, pad2: string)
    ensures FlagVar !in env ==> !IsAIEnabled(env)
    ensures AllSpace(pad1) && AllSpace(pad2) && (ToLower(word) == "true" || ToLower(word) == "1") ==>
      IsAIEnabled(map[FlagVar := pad1 + word + pad2])
    ensures AllSpace(pad1) && AllSpace(pad2) && Trimmed(word) && ToLower(word) != "true" && ToLower(word) != "1" ==>
      !IsAIEnabled(map[FlagVar := pad1 + word + pad2])
  {
    if AllSpace(pad1) && AllSpace(pad2) && (Trimmed(word) || ToLower(word) == "true" || ToLower(word) == "1") {
      ToLowerAppend(pad1 + word, pad2);
      ToLowerAppend(pad1, word);
      ToLowerSpaces(pad1);
      ToLowerSpaces(pad2);
      LowerTrimmed(word);
      TrimOfPadded(pad1, ToLower(word), pad2);
    }
  }

  /** The model name is the trimmed setting, or the default when the
      setting is unset or blank; either way it has no white space at its
      ends. */
  lemma ModelChoice(env: Env)
    ensures ModelVar !in env || AllSpace(env[ModelVar]) ==> GetOpenAIModel(env) == DefaultModel
    ensures ModelVar in env && !AllSpace(env[ModelVar]) ==> GetOpenAIModel(env) == Trim(env[ModelVar])
    ensures Trimmed(GetOpenAIModel(env))
  {
    if ModelVar in env {
      TrimEmptyIffAllSpace(env[ModelVar]);
      TrimIsTrimmed(env[ModelVar]);
    }
  }
}
