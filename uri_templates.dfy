/**
 * The slash logic of `prepareUriTemplate` in `createUriTemplateHandler`
 * (util.kt): before Spring expands a URI template against the handler's
 * base URL, the template gains or loses one leading `/` so that the base
 * URL and the template are joined by a slash. The base URL is nullable
 * (`getBaseUrl()`).
 */
module UriTemplates {
  import opened KotlinStrings

  /** `prepareUriTemplate(uriTemplate)` with the handler's current base URL. */
  function PrepareUriTemplate(baseUrl: Option<string>, uriTemplate: string): (r: string)
    ensures r == uriTemplate || r == "/" + uriTemplate || "/" + r == uriTemplate
  {
    match baseUrl
    case Some(base) =>
      if StartsWith(uriTemplate, "/") && EndsWith(base, "/") then uriTemplate[1..]
      else if !StartsWith(uriTemplate, "/") && !EndsWith(base, "/") then "/" + uriTemplate
      else uriTemplate
    case None =>
      if !StartsWith(uriTemplate, "/") then "/" + uriTemplate else uriTemplate
  }

  /** A base URL and a prepared template always meet at a slash. */
  lemma {:induction false} SlashAtJoin(base: string, uriTemplate: string)
    ensures var r := PrepareUriTemplate(Some(base), uriTemplate);
            EndsWith(base, "/") || StartsWith(r, "/")
  {
  }

  /**
   * The join has no second slash unless the template itself began with two:
   * a template starting with a single `/` loses it after a base ending in `/`.
   */
  lemma {:induction false} NoDoubledSlashAtJoin(base: string, uriTemplate: string)
    requires EndsWith(base, "/")
    requires StartsWith(PrepareUriTemplate(Some(base), uriTemplate), "/")
    ensures StartsWith(uriTemplate, "//")
  {
    assert uriTemplate[..1] == "/";
    assert uriTemplate[1..][..1] == uriTemplate[1..2];
  }

  /** After a base not ending in `/` the template is never stripped, so the join doubles a slash only when the template began with two. */
  lemma {:induction false} OpenBaseDoubledSlash(base: string, uriTemplate: string)
    requires !EndsWith(base, "/")
    requires StartsWith(PrepareUriTemplate(Some(base), uriTemplate), "//")
    ensures StartsWith(uriTemplate, "//")
  {
    LeadingSlashAdded(uriTemplate);
  }

  /** A slash put in front of a template makes a `//` exactly when the template already began with `/`. */
  lemma {:induction false} LeadingSlashAdded(uriTemplate: string)
    ensures StartsWith("/" + uriTemplate, "//") <==> StartsWith(uriTemplate, "/")
  {
    var r := "/" + uriTemplate;
    if 1 <= |uriTemplate| {
      assert r[..2] == ['/', uriTemplate[0]];
      assert uriTemplate[..1] == [uriTemplate[0]];
    }
  }

  /** A template that already meets the base at exactly one slash is passed through untouched. */
  lemma {:induction false} WellJoinedUnchanged(base: string, uriTemplate: string)
    requires EndsWith(base, "/") != StartsWith(uriTemplate, "/")
    ensures PrepareUriTemplate(Some(base), uriTemplate) == uriTemplate
  {
  }

  /** With no base URL the result is an absolute path: the template, given a leading slash if it had none. */
  lemma {:induction false} NoBaseAbsolute(uriTemplate: string)
    ensures var r := PrepareUriTemplate(None, uriTemplate);
            StartsWith(r, "/") && (StartsWith(uriTemplate, "/") ==> r == uriTemplate)
  {
    assert ("/" + uriTemplate)[..1] == "/";
  }

  /** With no base URL, preparing a prepared template changes nothing. */
  lemma {:induction false} NoBaseIdempotent(uriTemplate: string)
    ensures var r := PrepareUriTemplate(None, uriTemplate);
            PrepareUriTemplate(None, r) == r
  {
    NoBaseAbsolute(uriTemplate);
  }

  /** With a base URL that does not end in a slash, preparing a prepared template changes nothing. */
  lemma {:induction false} OpenBaseIdempotent(base: string, uriTemplate: string)
    requires !EndsWith(base, "/")
    ensures var r := PrepareUriTemplate(Some(base), uriTemplate);
            PrepareUriTemplate(Some(base), r) == r
  {
    SlashAtJoin(base, uriTemplate);
  }

  /** After a base ending in a slash the template `//x` becomes `/x`, and then `x`: preparing twice is not preparing once. */
  lemma {:induction false} ClosedBaseNotIdempotent()
    ensures var r := PrepareUriTemplate(Some("v1/"), "//x");
            r == "/x" && PrepareUriTemplate(Some("v1/"), r) == "x"
  {
    assert "//x"[..1] == "/";
    assert "/x"[..1] == "/";
    assert "v1/"[2..] == "/";
  }
}
