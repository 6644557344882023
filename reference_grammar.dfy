/**
 * TeamCity's parameter-reference grammar (ReferencesResolverUtil), which
 * util.kt calls but does not contain, reduced to the contract util.kt
 * relies on. The grammar splits a value into literal text and references;
 * a reference is known by its key and keeps the exact text it had in the
 * value, which the grammar writes back whenever a listener rejects it.
 * `mayContainReference` is the grammar's cheap pre-check on raw text; it
 * is not interpreted, and a value carries its verdict. A value is always
 * given by its decomposition, and its text is `Render` of it.
 */
module ReferenceGrammar {
  import opened KotlinStrings

  /** One piece of a decomposed value: its text, and for a reference also its key. */
  datatype Span = Lit(text: string) | Ref(key: string, text: string)

  /** A parameter value as the grammar sees it: its decomposition, and the verdict of `mayContainReference` on its text. */
  datatype Value = Value(spans: seq<Span>, mayContainReference: bool)

  /** The text of the first `n` spans. */
  function RenderUpTo(spans: seq<Span>, n: nat): string
    requires n <= |spans|
  {
    if n == 0 then "" else RenderUpTo(spans, n - 1) + spans[n - 1].text
  }

  /** The text a decomposition was taken from. */
  function Render(spans: seq<Span>): string {
    RenderUpTo(spans, |spans|)
  }

  /** The value holds at least one reference. */
  predicate HasReference(spans: seq<Span>) {
    exists i :: 0 <= i < |spans| && spans[i].Ref?
  }

  /** The value holds a reference with this key. */
  predicate HasKey(spans: seq<Span>, key: string) {
    exists i :: 0 <= i < |spans| && spans[i].Ref? && spans[i].key == key
  }

  /** The pre-check lets every value that holds a reference through (no false negatives). */
  predicate NoFalseNegatives(value: Value) {
    HasReference(value.spans) ==> value.mayContainReference
  }

  /** The text of every reference spells out its key, as `%key%` does. */
  predicate ShowsKeys(spans: seq<Span>) {
    forall i :: 0 <= i < |spans| && spans[i].Ref? ==> Contains(spans[i].text, spans[i].key)
  }

  /** The text of every span occurs in the text of the value. */
  lemma {:induction false} SpanTextOccurs(spans: seq<Span>, n: nat, i: nat)
    requires i < n <= |spans|
    ensures Contains(RenderUpTo(spans, n), spans[i].text)
  {
    var t := spans[i].text;
    assert OccursAt(t, t, 0);
    if n == i + 1 {
      ContainsInside(RenderUpTo(spans, i), t, "", t);
      assert RenderUpTo(spans, i) + t + "" == RenderUpTo(spans, n);
    } else {
      SpanTextOccurs(spans, n - 1, i);
      ContainsInside("", RenderUpTo(spans, n - 1), spans[n - 1].text, t);
      assert "" + RenderUpTo(spans, n - 1) + spans[n - 1].text == RenderUpTo(spans, n);
    }
  }
}
