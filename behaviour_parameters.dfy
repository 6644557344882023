/**
 * `isShouldSetEnvParameters` and `isShouldSetConfigParameters` of util.kt:
 * whether a build exposes the fetched secrets as environment variables or
 * as configuration parameters. Each reads one behaviour key of the
 * parameter map and parses it with Kotlin's `String.toBoolean`, defaulting
 * to false when the key is absent. The two keys,
 * `VaultConstants.BehaviourParameters.ExposeEnvParameters` and
 * `ExposeConfigParameters`, are parameters of the model.
 */
module BehaviourParameters {

  /** The behaviour keys of the plugin. */
  datatype BehaviourKeys = BehaviourKeys(exposeEnvParameters: string, exposeConfigParameters: string)

  /** Lower-case of an ASCII letter; every other character is left alone. */
  function LowerAscii(c: char): (r: char)
    ensures 'A' <= c <= 'Z' ==> r as int == c as int + 32
    ensures !('A' <= c <= 'Z') ==> r == c
  {
    if 'A' <= c <= 'Z' then (c as int + 32) as char else c
  }

  /**
   * Kotlin's `String.toBoolean()`: the string is "true", ignoring case.
   * Folding ASCII letters is enough here: no other character case-maps to
   * one of the letters of "true".
   */
  predicate ToBoolean(s: string)
    ensures ToBoolean(s) <==> |s| == 4 && s[0] in "tT" && s[1] in "rR" && s[2] in "uU" && s[3] in "eE"
  {
    |s| == 4 && forall i :: 0 <= i < 4 ==> LowerAscii(s[i]) == "true"[i]
  }

  /** `parameters[key]?.toBoolean() ?: false`. */
  predicate FlagSet(parameters: map<string, string>, key: string) {
    key in parameters && ToBoolean(parameters[key])
  }

  /** `isShouldSetEnvParameters`. */
  function IsShouldSetEnvParameters(parameters: map<string, string>, keys: BehaviourKeys): (r: bool)
    ensures keys.exposeEnvParameters !in parameters ==> !r
    ensures keys.exposeEnvParameters in parameters ==> (r <==> ToBoolean(parameters[keys.exposeEnvParameters]))
  {
    FlagSet(parameters, keys.exposeEnvParameters)
  }

  /** `isShouldSetConfigParameters`. */
  function IsShouldSetConfigParameters(parameters: map<string, string>, keys: BehaviourKeys): (r: bool)
    ensures keys.exposeConfigParameters !in parameters ==> !r
    ensures keys.exposeConfigParameters in parameters ==> (r <==> ToBoolean(parameters[keys.exposeConfigParameters]))
  {
    FlagSet(parameters, keys.exposeConfigParameters)
  }

  /** Sample spellings: "true" in several mixes of case is true; "false", the empty string, "yes", "true " and "1" are not. */
  lemma {:induction false} ToBooleanSpellings()
    ensures ToBoolean("true") && ToBoolean("TRUE") && ToBoolean("True") && ToBoolean("tRuE")
    ensures !ToBoolean("false") && !ToBoolean("") && !ToBoolean("yes") && !ToBoolean("true ") && !ToBoolean("1")
  {
    assert !ToBoolean("false") by { assert |"false"| == 5; }
    assert !ToBoolean("yes") by { assert |"yes"| == 3; }
    assert !ToBoolean("true ") by { assert |"true "| == 5; }
  }

  /** Only the flag's own key matters: writing any other key leaves the answer as it was. */
  lemma {:induction false} OtherKeysIgnored(parameters: map<string, string>, keys: BehaviourKeys, other: string, v: string)
    requires other != keys.exposeEnvParameters && other != keys.exposeConfigParameters
    ensures IsShouldSetEnvParameters(parameters[other := v], keys) == IsShouldSetEnvParameters(parameters, keys)
    ensures IsShouldSetConfigParameters(parameters[other := v], keys) == IsShouldSetConfigParameters(parameters, keys)
  {
  }

  /** Setting a behaviour key to "true" switches that behaviour on, and to "false" switches it off. */
  lemma {:induction false} SetFlag(parameters: map<string, string>, keys: BehaviourKeys)
    ensures IsShouldSetEnvParameters(parameters[keys.exposeEnvParameters := "true"], keys)
    ensures !IsShouldSetEnvParameters(parameters[keys.exposeEnvParameters := "false"], keys)
    ensures IsShouldSetConfigParameters(parameters[keys.exposeConfigParameters := "true"], keys)
    ensures !IsShouldSetConfigParameters(parameters[keys.exposeConfigParameters := "false"], keys)
  {
    ToBooleanSpellings();
  }

  /** An empty parameter map exposes nothing. */
  lemma {:induction false} NothingByDefault(keys: BehaviourKeys)
    ensures !IsShouldSetEnvParameters(map[], keys) && !IsShouldSetConfigParameters(map[], keys)
  {
  }
}
