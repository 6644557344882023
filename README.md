# Vault references and URI templates of the TeamCity HashiCorp Vault plugin

A Dafny model of the helpers in `util.kt` of the plugin's common module.
The plugin fills TeamCity build parameters from HashiCorp Vault. Vault
secrets are written into parameter values as TeamCity references whose key
carries the Vault prefix (`VaultConstants.VAULT_PARAMETER_PREFIX`).

- `resolveVaultReferences` rewrites a value. Each in-scope reference whose
  key, with the prefix taken off, has a fetched secret is replaced by that
  secret. Everything else is copied as written. The result is `null` when
  nothing changed.
- `getVaultReferences` lists the in-scope reference keys of one value. Two
  cheap pre-checks come first, and each can return an empty list.
- `collectRerefences` walks a parameter map. It appends every value's Vault
  references to a caller's collection. When the caller passes a second
  collection, it also appends the name of each parameter that had any.
- `prepareUriTemplate` adds or removes one leading `/` on a URI template so
  that it meets the handler's base URL at a slash.
- `isShouldSetEnvParameters` and `isShouldSetConfigParameters` read a
  behaviour flag from a parameter map. A missing key means false.

Modules:

- `KotlinStrings` (`kotlin_strings.dfy`): nullable values and the `String`
  members the code uses.
- `ReferenceGrammar` (`reference_grammar.dfy`): the contract of TeamCity's
  reference grammar, `ReferencesResolverUtil`, that the code relies on. A
  value is given by its decomposition into literal and reference spans.
  Its text is `Render` of the spans. A rejected reference is written back
  as the exact text it had.
- `VaultReferences` (`vault_references.dfy`): the resolver and the
  reference lister. The grammar's walk is the loop of each method. The
  listener callbacks are the loop body.
- `ReferenceCollection` (`reference_collection.dfy`): the collector. The
  caller's collections are objects of class `StringCollection`. The method
  covers the case where `keys` is null and the case where `keys` and
  `references` are the same object.
- `UriTemplates` (`uri_templates.dfy`): the slash logic of
  `prepareUriTemplate`.
- `BehaviourParameters` (`behaviour_parameters.dfy`): the two flag lookups.

The specification functions are count-indexed: `ResolvedUpTo(spans, n, …)`
describes the first `n` spans. The collector's functions
(`WithReferences`, `WithNames`, `WithNamesAndReferences`) start from the
collection's earlier contents, `start`, and describe what it holds after
the first `n` parameters.

`prepareUriTemplate` is meant to leave exactly one `/` between base URL
and template. The code removes or adds at most one slash. So a template that
begins with `//` still produces a doubled slash at the join. The model
follows the code. `UriTemplates.NoDoubledSlashAtJoin` (base ending in `/`)
and `UriTemplates.OpenBaseDoubledSlash` (any other base) prove that this is
the only way a doubled slash arises. `UriTemplates.ClosedBaseNotIdempotent`
exhibits the case. The handler always builds its base URL with a trailing
`/`, so such a template also gives different results when prepared twice.

## Model

| member | source | states |
|---|---|---|
| KotlinStrings.RemovePrefix | common/src/main/kotlin/org/jetbrains/teamcity/vault/util.kt:150 | `removePrefix` undoes prepending the prefix, and leaves a string without it unchanged |
| KotlinStrings.StartsWithCharacters | common/src/main/kotlin/org/jetbrains/teamcity/vault/util.kt:131 | `startsWith` (lines 84, 88, 95, 131, 149) holds exactly when the string is at least as long and agrees with the prefix character by character |
| KotlinStrings.EndsWithCharacters | common/src/main/kotlin/org/jetbrains/teamcity/vault/util.kt:84 | `endsWith` (lines 84, 88) holds exactly when the string is at least as long and its last characters agree with the suffix one by one |
| KotlinStrings.ContainsBounds | common/src/main/kotlin/org/jetbrains/teamcity/vault/util.kt:124 | `contains` (line 124) finds nothing longer than the string, and always finds the empty string |
| KotlinStrings.StartsWithContains | common/src/main/kotlin/org/jetbrains/teamcity/vault/util.kt:124 | a string contains each of its prefixes, so a key starting with the Vault prefix makes a value containing it pass the check at line 124 |
| VaultReferences.Replacement | common/src/main/kotlin/org/jetbrains/teamcity/vault/util.kt:148-153 | the listener accepts a reference exactly when its key starts with the prefix and the key with the prefix removed is mapped; the replacement is that mapped value; otherwise it rejects |
| VaultReferences.ResolveVaultReferences | common/src/main/kotlin/org/jetbrains/teamcity/vault/util.kt:145-162 | returns null exactly when the accumulated text equals the value; otherwise returns the accumulated text; the loop keeps the builder equal to the resolution of the spans seen so far |
| VaultReferences.PieceOfSpan | common/src/main/kotlin/org/jetbrains/teamcity/vault/util.kt:151 | what the listener leaves in the builder for one span: the secret for an in-scope mapped reference (line 151), the literal text (line 156), and otherwise the reference's own text, which the grammar writes back after a rejection |
| VaultReferences.ResolvedAppend | common/src/main/kotlin/org/jetbrains/teamcity/vault/util.kt:146-158 | the builder only appends: resolving two pieces of a value one after the other gives the two outputs concatenated |
| VaultReferences.ResolvedAround | common/src/main/kotlin/org/jetbrains/teamcity/vault/util.kt:147-158 | each span contributes its own piece at its own position, between the outputs of the spans before and after it |
| VaultReferences.LiteralCopied | common/src/main/kotlin/org/jetbrains/teamcity/vault/util.kt:155-157 | literal text is appended unchanged and in its place |
| VaultReferences.RejectedReproduced | common/src/main/kotlin/org/jetbrains/teamcity/vault/util.kt:149-150 | a reference outside the namespace, or one whose stripped key has no secret, reappears exactly as written |
| VaultReferences.MappedSubstituted | common/src/main/kotlin/org/jetbrains/teamcity/vault/util.kt:150-152 | an in-scope mapped reference is replaced by its secret, looked up with the prefix removed and not escaped |
| VaultReferences.AllRejectedUnchanged | common/src/main/kotlin/org/jetbrains/teamcity/vault/util.kt:159-161 | when every reference is rejected the output is the value itself, so the result is null |
| VaultReferences.EmptyReplacementsUnchanged | common/src/main/kotlin/org/jetbrains/teamcity/vault/util.kt:150 | with an empty secrets map nothing is replaced and the result is null |
| VaultReferences.NoVaultReferenceUnchanged | common/src/main/kotlin/org/jetbrains/teamcity/vault/util.kt:149 | a value without in-scope references is returned as null whatever the secrets |
| VaultReferences.VaultReferencesOf | common/src/main/kotlin/org/jetbrains/teamcity/vault/util.kt:123-124 | a value that fails either pre-check (the grammar's `mayContainReference`, or containing the prefix) yields the empty list |
| VaultReferences.GetVaultReferences | common/src/main/kotlin/org/jetbrains/teamcity/vault/util.kt:122-139 | returns the empty list when a pre-check fails, otherwise the in-scope keys in order with duplicates and prefix kept; the loop keeps the list equal to the keys of the spans seen so far |
| VaultReferences.InScopeKeysMembership | common/src/main/kotlin/org/jetbrains/teamcity/vault/util.kt:130-135 | a key is listed if and only if it starts with the prefix and the value has a reference with that key |
| VaultReferences.InScopeKeysAppend | common/src/main/kotlin/org/jetbrains/teamcity/vault/util.kt:126-138 | listing keeps the order of the references: the keys of two pieces of a value come one after the other |
| VaultReferences.VaultReferencesMembership | common/src/main/kotlin/org/jetbrains/teamcity/vault/util.kt:131-133 | a returned key always starts with the prefix and is a key of the value; out-of-scope references never appear, and every in-scope key appears once the pre-checks pass |
| VaultReferences.PreChecksLoseNothing | common/src/main/kotlin/org/jetbrains/teamcity/vault/util.kt:123-124 | if the grammar's pre-check has no false negatives and reference text spells out its key, the two pre-checks never drop a key |
| ReferenceCollection.StringCollection.Add | common/src/main/kotlin/org/jetbrains/teamcity/vault/util.kt:116 | `keys?.add(key)` appends one name |
| ReferenceCollection.StringCollection.AddAll | common/src/main/kotlin/org/jetbrains/teamcity/vault/util.kt:117 | `references.addAll(refs)` appends the references in order |
| ReferenceCollection.ReferenceListsAt | common/src/main/kotlin/org/jetbrains/teamcity/vault/util.kt:114 | the list for each parameter is what `getVaultReferences` returns for its value |
| ReferenceCollection.CollectReferences | common/src/main/kotlin/org/jetbrains/teamcity/vault/util.kt:111-120 | `references` gains every parameter's Vault references in map order; a non-null, distinct `keys` gains exactly the names of the parameters that had any; a single collection passed twice gains each such name followed by its references |
| ReferenceCollection.NamesWithReferencesIff | common/src/main/kotlin/org/jetbrains/teamcity/vault/util.kt:115-116 | a name ends up in `keys` if and only if it was there before or its parameter's value has at least one Vault reference |
| ReferenceCollection.AllReferencesMembership | common/src/main/kotlin/org/jetbrains/teamcity/vault/util.kt:114-117 | a key ends up in `references` if and only if it was there before or is a Vault reference of some parameter's value |
| ReferenceCollection.AllReferencesInScope | common/src/main/kotlin/org/jetbrains/teamcity/vault/util.kt:117 | every key `references` gains starts with the Vault prefix |
| ReferenceCollection.NamesAndReferencesLength | common/src/main/kotlin/org/jetbrains/teamcity/vault/util.kt:115-118 | a collection passed twice gains exactly as many entries as the names and the references together |
| UriTemplates.PrepareUriTemplate | common/src/main/kotlin/org/jetbrains/teamcity/vault/util.kt:82-99 | the template is returned as is, with one slash added in front, or with its leading slash removed |
| UriTemplates.SlashAtJoin | common/src/main/kotlin/org/jetbrains/teamcity/vault/util.kt:83-92 | with a base URL, the base ends in a slash or the prepared template starts with one |
| UriTemplates.NoDoubledSlashAtJoin | common/src/main/kotlin/org/jetbrains/teamcity/vault/util.kt:84-86 | after a base ending in a slash, the prepared template starts with a slash only when the template started with two |
| UriTemplates.OpenBaseDoubledSlash | common/src/main/kotlin/org/jetbrains/teamcity/vault/util.kt:88-92 | after a base not ending in a slash the template is never stripped, so the prepared template starts with `//` only when the template did |
| UriTemplates.LeadingSlashAdded | common/src/main/kotlin/org/jetbrains/teamcity/vault/util.kt:89 | the slash put in front of a template makes a `//` exactly when the template already began with `/` |
| UriTemplates.WellJoinedUnchanged | common/src/main/kotlin/org/jetbrains/teamcity/vault/util.kt:92 | a template that already meets the base at exactly one slash is returned unchanged |
| UriTemplates.NoBaseAbsolute | common/src/main/kotlin/org/jetbrains/teamcity/vault/util.kt:95-98 | with no base URL the result starts with a slash, and a template that starts with one is unchanged |
| UriTemplates.NoBaseIdempotent | common/src/main/kotlin/org/jetbrains/teamcity/vault/util.kt:95-98 | with no base URL, preparing twice is preparing once |
| UriTemplates.OpenBaseIdempotent | common/src/main/kotlin/org/jetbrains/teamcity/vault/util.kt:88-92 | with a base URL that does not end in a slash, preparing twice is preparing once |
| UriTemplates.ClosedBaseNotIdempotent | common/src/main/kotlin/org/jetbrains/teamcity/vault/util.kt:84-86 | after the base `v1/` the template `//x` becomes `/x`, which would become `x` if prepared again |
| BehaviourParameters.ToBoolean | common/src/main/kotlin/org/jetbrains/teamcity/vault/util.kt:66-68 | Kotlin's `String.toBoolean()`: true exactly for four characters spelling t, r, u, e, each in either case |
| BehaviourParameters.IsShouldSetEnvParameters | common/src/main/kotlin/org/jetbrains/teamcity/vault/util.kt:66 | false when the env-exposure key is absent, otherwise whether its value reads as true |
| BehaviourParameters.IsShouldSetConfigParameters | common/src/main/kotlin/org/jetbrains/teamcity/vault/util.kt:68 | false when the config-exposure key is absent, otherwise whether its value reads as true |
| BehaviourParameters.ToBooleanSpellings | common/src/main/kotlin/org/jetbrains/teamcity/vault/util.kt:66-68 | sample spellings: "true" in several mixes of case reads as true; "false", the empty string, "yes", "true " and "1" do not |
| BehaviourParameters.OtherKeysIgnored | common/src/main/kotlin/org/jetbrains/teamcity/vault/util.kt:66-68 | each flag depends on its own key only |
| BehaviourParameters.SetFlag | common/src/main/kotlin/org/jetbrains/teamcity/vault/util.kt:66-68 | setting a flag's key to "true" turns it on and to "false" turns it off |
| BehaviourParameters.NothingByDefault | common/src/main/kotlin/org/jetbrains/teamcity/vault/util.kt:66-68 | an empty parameter map turns neither flag on |

## Left out

- `createRestTemplate`, `withVaultToken` and the Spring `RestTemplate`, interceptor and converter setup (util.kt:27-64): HTTP client plumbing on libraries that are not part of this model.
- The rest of `createUriTemplateHandler` (util.kt:70-80, 102-103): the base-URL formatting and the Spring handler subclassing. The base URL is a parameter of `PrepareUriTemplate`.
- `isJava8OrNewer` (util.kt:23-25) reads a JVM system property, and `nullIfEmpty` (util.kt:106-108) wraps a library call. Both are outside the modelled core.
- The grammar of `ReferencesResolverUtil` is not part of this model: its syntax, escaping and splitting. A value is given by its decomposition into spans, each reference with its key and its written text. The verdict of `mayContainReference` is part of the value, not computed.
- `VaultConstants` is not part of this model. The Vault prefix and the two behaviour keys are parameters.
- Kotlin maps are given by their entries in iteration order, as a sequence; the order of a real map is whatever its implementation gives.
- ReferenceCollection.CollectReferences: the caller's `MutableCollection`s are modelled as lists that append. A set passed in would drop duplicates, which the model does not capture.
- Whether resolving an already resolved value changes it again is not modelled: that depends on how the grammar splits the new text, which the model does not compute, and a secret may itself contain reference syntax.
