/**
 * Resolving and listing Vault references in one parameter value
 * (`resolveVaultReferences` and `getVaultReferences` of util.kt).
 *
 * In util.kt both walk the value through the grammar with a listener
 * object; here the grammar's walk over the spans is the methods' loop and
 * the listener's two callbacks are the loop body. `prefix` is
 * `VaultConstants.VAULT_PARAMETER_PREFIX`.
 */
module VaultReferences {
  import opened KotlinStrings
  import opened ReferenceGrammar

  /** The key is in the Vault namespace. */
  predicate InScope(key: string, prefix: string) {
    StartsWith(key, prefix)
  }

  /**
   * The resolver listener's `appendReference` decision on one key: the
   * replacement to append, or None to reject the reference. Lookup is by
   * the key with the prefix taken off.
   */
  function Replacement(key: string, prefix: string, replacements: map<string, string>): (r: Option<string>)
    ensures InScope(key, prefix) && key[|prefix|..] in replacements ==> r == Some(replacements[key[|prefix|..]])
    ensures !(InScope(key, prefix) && key[|prefix|..] in replacements) ==> r == None
  {
    if !InScope(key, prefix) then None
    else
      var stripped := RemovePrefix(key, prefix);
      if stripped in replacements then Some(replacements[stripped]) else None
  }

  /**
   * What ends up in the resolver's StringBuilder for one span: literal text
   * through `appendText`, an accepted reference as its replacement, a
   * rejected one as the original reference text the grammar writes back.
   */
  function Piece(span: Span, prefix: string, replacements: map<string, string>): string {
    match span
    case Lit(t) => t
    case Ref(k, _) =>
      match Replacement(k, prefix, replacements)
      case Some(v) => v
      case None => span.text
  }

  /**
   * A span's piece is its secret when it is an in-scope reference whose key,
   * prefix removed, is mapped, and otherwise its own text.
   */
  lemma {:induction false} PieceOfSpan(span: Span, prefix: string, replacements: map<string, string>)
    ensures (span.Ref? && InScope(span.key, prefix) && span.key[|prefix|..] in replacements)
              ==> Piece(span, prefix, replacements) == replacements[span.key[|prefix|..]]
    ensures (span.Lit? || !InScope(span.key, prefix) || span.key[|prefix|..] !in replacements)
              ==> Piece(span, prefix, replacements) == span.text
  {
  }

  /** The text the resolver has accumulated after the first `n` spans. */
  function ResolvedUpTo(spans: seq<Span>, n: nat, prefix: string, replacements: map<string, string>): string
    requires n <= |spans|
  {
    if n == 0 then ""
    else ResolvedUpTo(spans, n - 1, prefix, replacements) + Piece(spans[n - 1], prefix, replacements)
  }

  /** The text the resolver accumulates for a whole value. */
  function Resolved(spans: seq<Span>, prefix: string, replacements: map<string, string>): string {
    ResolvedUpTo(spans, |spans|, prefix, replacements)
  }

  /**
   * `resolveVaultReferences`: the value with every in-scope, mapped
   * reference replaced by its secret, or None (Kotlin's `null`) when that
   * text is the value itself.
   */
  method ResolveVaultReferences(spans: seq<Span>, prefix: string, replacements: map<string, string>)
    returns (r: Option<string>)
    ensures r.None? <==> Resolved(spans, prefix, replacements) == Render(spans)
    ensures r.Some? ==> r.value == Resolved(spans, prefix, replacements)
  {
    var value := Render(spans);
    var result := "";
    var i := 0;
    while i < |spans|
      invariant i <= |spans|
      invariant result == ResolvedUpTo(spans, i, prefix, replacements)
    {
      match spans[i] {
        case Lit(text) =>
          result := result + text;
        case Ref(key, text) =>
          match Replacement(key, prefix, replacements) {
            case Some(replacement) =>
              result := result + replacement;
            case None =>
              result := result + text;
          }
      }
      i := i + 1;
    }
    if result == value {
      r := None;
    } else {
      r := Some(result);
    }
  }

  /** The resolver's output is built piece by piece, in the order of the spans. */
  lemma {:induction false} ResolvedAppend(a: seq<Span>, b: seq<Span>, k: nat, prefix: string, replacements: map<string, string>)
    requires k <= |b|
    ensures ResolvedUpTo(a + b, |a| + k, prefix, replacements)
         == Resolved(a, prefix, replacements) + ResolvedUpTo(b, k, prefix, replacements)
  {
    if k == 0 {
      ResolvedPrefixOnly(a, b, |a|, prefix, replacements);
    } else {
      ResolvedAppend(a, b, k - 1, prefix, replacements);
      assert (a + b)[|a| + k - 1] == b[k - 1];
    }
  }

  /** Spans after the first `n` do not affect what has been accumulated after `n`. */
  lemma {:induction false} ResolvedPrefixOnly(a: seq<Span>, b: seq<Span>, n: nat, prefix: string, replacements: map<string, string>)
    requires n <= |a|
    ensures ResolvedUpTo(a + b, n, prefix, replacements) == ResolvedUpTo(a, n, prefix, replacements)
  {
    if n > 0 {
      ResolvedPrefixOnly(a, b, n - 1, prefix, replacements);
      assert (a + b)[n - 1] == a[n - 1];
    }
  }

  /** Resolving the value with one span in the middle puts that span's piece between the two sides' outputs. */
  lemma {:induction false} ResolvedAround(a: seq<Span>, span: Span, b: seq<Span>, prefix: string, replacements: map<string, string>)
    ensures Resolved(a + [span] + b, prefix, replacements)
         == Resolved(a, prefix, replacements) + Piece(span, prefix, replacements) + Resolved(b, prefix, replacements)
  {
    var front := a + [span];
    ResolvedAppend(front, b, |b|, prefix, replacements);
    ResolvedAppend(a, [span], 1, prefix, replacements);
    assert a + [span] + b == front + b;
  }

  /** Literal text is copied unchanged, in its place among the other spans. */
  lemma {:induction false} LiteralCopied(a: seq<Span>, text: string, b: seq<Span>, prefix: string, replacements: map<string, string>)
    ensures Resolved(a + [Lit(text)] + b, prefix, replacements)
         == Resolved(a, prefix, replacements) + text + Resolved(b, prefix, replacements)
  {
    ResolvedAround(a, Lit(text), b, prefix, replacements);
  }

  /** An out-of-scope or unmapped reference is reproduced exactly as it was written. */
  lemma {:induction false} RejectedReproduced(a: seq<Span>, key: string, text: string, b: seq<Span>, prefix: string, replacements: map<string, string>)
    requires !InScope(key, prefix) || key[|prefix|..] !in replacements
    ensures Resolved(a + [Ref(key, text)] + b, prefix, replacements)
         == Resolved(a, prefix, replacements) + text + Resolved(b, prefix, replacements)
  {
    ResolvedAround(a, Ref(key, text), b, prefix, replacements);
  }

  /** An in-scope, mapped reference is replaced by its secret, looked up without the prefix and not escaped. */
  lemma {:induction false} MappedSubstituted(a: seq<Span>, key: string, text: string, b: seq<Span>, prefix: string, replacements: map<string, string>)
    requires InScope(key, prefix) && key[|prefix|..] in replacements
    ensures Resolved(a + [Ref(key, text)] + b, prefix, replacements)
         == Resolved(a, prefix, replacements) + replacements[key[|prefix|..]] + Resolved(b, prefix, replacements)
  {
    ResolvedAround(a, Ref(key, text), b, prefix, replacements);
  }

  /** When the listener rejects every reference, the output is the value itself. */
  lemma {:induction false} AllRejectedUnchanged(spans: seq<Span>, prefix: string, replacements: map<string, string>)
    requires forall i :: 0 <= i < |spans| && spans[i].Ref? ==> Replacement(spans[i].key, prefix, replacements).None?
    ensures Resolved(spans, prefix, replacements) == Render(spans)
  {
    AllRejectedCopied(spans, |spans|, prefix, replacements);
  }

  /** The inductive step behind `AllRejectedUnchanged`, span by span. */
  lemma {:induction false} AllRejectedCopied(spans: seq<Span>, n: nat, prefix: string, replacements: map<string, string>)
    requires n <= |spans|
    requires forall i :: 0 <= i < |spans| && spans[i].Ref? ==> Replacement(spans[i].key, prefix, replacements).None?
    ensures ResolvedUpTo(spans, n, prefix, replacements) == RenderUpTo(spans, n)
  {
    if n > 0 {
      AllRejectedCopied(spans, n - 1, prefix, replacements);
    }
  }

  /** With no secrets at hand nothing is replaced, so ResolveVaultReferences returns None. */
  lemma {:induction false} EmptyReplacementsUnchanged(spans: seq<Span>, prefix: string)
    ensures Resolved(spans, prefix, map[]) == Render(spans)
  {
    AllRejectedUnchanged(spans, prefix, map[]);
  }

  /** A value without in-scope references comes out unchanged whatever the secrets, so the result is None. */
  lemma {:induction false} NoVaultReferenceUnchanged(spans: seq<Span>, prefix: string, replacements: map<string, string>)
    requires forall i :: 0 <= i < |spans| && spans[i].Ref? ==> !InScope(spans[i].key, prefix)
    ensures Resolved(spans, prefix, replacements) == Render(spans)
  {
    AllRejectedUnchanged(spans, prefix, replacements);
  }

  /** The key of a span if it is an in-scope reference. */
  function InScopeKey(span: Span, prefix: string): seq<string> {
    if span.Ref? && InScope(span.key, prefix) then [span.key] else []
  }

  /** The keys of the in-scope references among the first `n` spans, in order and with duplicates, prefix kept. */
  function InScopeKeysUpTo(spans: seq<Span>, n: nat, prefix: string): seq<string>
    requires n <= |spans|
  {
    if n == 0 then [] else InScopeKeysUpTo(spans, n - 1, prefix) + InScopeKey(spans[n - 1], prefix)
  }

  /** The keys of the in-scope references of a whole value. */
  function InScopeKeys(spans: seq<Span>, prefix: string): seq<string> {
    InScopeKeysUpTo(spans, |spans|, prefix)
  }

  /** The two cheap checks `getVaultReferences` makes on the raw value before walking it. */
  predicate PassesPreChecks(value: Value, prefix: string) {
    value.mayContainReference && Contains(Render(value.spans), prefix)
  }

  /** What `getVaultReferences` returns for a value. */
  function VaultReferencesOf(value: Value, prefix: string): (keys: seq<string>)
    ensures !PassesPreChecks(value, prefix) ==> keys == []
  {
    if PassesPreChecks(value, prefix) then InScopeKeys(value.spans, prefix) else []
  }

  /**
   * `getVaultReferences`: empty when a pre-check fails, otherwise the keys
   * of the in-scope references in order, duplicates and prefix kept.
   */
  method GetVaultReferences(value: Value, prefix: string) returns (references: seq<string>)
    ensures references == VaultReferencesOf(value, prefix)
  {
    if !value.mayContainReference {
      return [];
    }
    if !Contains(Render(value.spans), prefix) {
      return [];
    }
    var spans := value.spans;
    references := [];
    var i := 0;
    while i < |spans|
      invariant i <= |spans|
      invariant references == InScopeKeysUpTo(spans, i, prefix)
    {
      match spans[i] {
        case Lit(_) =>
        case Ref(key, _) =>
          if InScope(key, prefix) {
            references := references + [key];
          }
      }
      i := i + 1;
    }
  }

  /** A key is listed exactly when it starts with the prefix and the value references it. */
  lemma {:induction false} InScopeKeysMembership(spans: seq<Span>, prefix: string)
    ensures forall k :: k in InScopeKeys(spans, prefix) <==> InScope(k, prefix) && HasKey(spans, k)
  {
    forall k
      ensures k in InScopeKeys(spans, prefix) <==> InScope(k, prefix) && HasKey(spans, k)
    {
      InScopeKeysUpToMembership(spans, |spans|, prefix, k);
    }
  }

  /** The inductive step behind `InScopeKeysMembership`, over the first `n` spans. */
  lemma {:induction false} InScopeKeysUpToMembership(spans: seq<Span>, n: nat, prefix: string, k: string)
    requires n <= |spans|
    ensures k in InScopeKeysUpTo(spans, n, prefix)
        <==> InScope(k, prefix) && exists i :: 0 <= i < n && spans[i].Ref? && spans[i].key == k
  {
    if n > 0 {
      InScopeKeysUpToMembership(spans, n - 1, prefix, k);
    }
  }

  /** Listing keeps the order of the references: the keys of a value are those of its parts, one after the other. */
  lemma {:induction false} InScopeKeysAppend(a: seq<Span>, b: seq<Span>, k: nat, prefix: string)
    requires k <= |b|
    ensures InScopeKeysUpTo(a + b, |a| + k, prefix) == InScopeKeys(a, prefix) + InScopeKeysUpTo(b, k, prefix)
  {
    if k == 0 {
      InScopeKeysPrefixOnly(a, b, |a|, prefix);
    } else {
      InScopeKeysAppend(a, b, k - 1, prefix);
      assert (a + b)[|a| + k - 1] == b[k - 1];
    }
  }

  /** Spans after the first `n` do not affect the keys listed among the first `n`. */
  lemma {:induction false} InScopeKeysPrefixOnly(a: seq<Span>, b: seq<Span>, n: nat, prefix: string)
    requires n <= |a|
    ensures InScopeKeysUpTo(a + b, n, prefix) == InScopeKeysUpTo(a, n, prefix)
  {
    if n > 0 {
      InScopeKeysPrefixOnly(a, b, n - 1, prefix);
      assert (a + b)[n - 1] == a[n - 1];
    }
  }

  /** Only keys of the value's own in-scope references are listed. */
  lemma {:induction false} VaultReferencesMembership(value: Value, prefix: string, key: string)
    ensures key in VaultReferencesOf(value, prefix)
        <==> PassesPreChecks(value, prefix) && InScope(key, prefix) && HasKey(value.spans, key)
  {
    InScopeKeysMembership(value.spans, prefix);
  }

  /**
   * The two pre-checks never lose a reference, as long as the grammar's
   * check has no false negatives and reference text spells out its key:
   * then `getVaultReferences` lists every in-scope key.
   */
  lemma {:induction false} PreChecksLoseNothing(value: Value, prefix: string)
    requires NoFalseNegatives(value)
    requires ShowsKeys(value.spans)
    ensures VaultReferencesOf(value, prefix) == InScopeKeys(value.spans, prefix)
  {
    var spans := value.spans;
    var keys := InScopeKeys(spans, prefix);
    if keys != [] {
      InScopeKeysMembership(spans, prefix);
      var key := keys[0];
      assert key in keys;
      var i :| 0 <= i < |spans| && spans[i].Ref? && spans[i].key == key;
      assert HasReference(spans);
      SpanTextOccurs(spans, |spans|, i);
      StartsWithContains(key, prefix);
      ContainsTransitive(spans[i].text, key, prefix);
      ContainsTransitive(Render(spans), spans[i].text, prefix);
    }
  }
}
