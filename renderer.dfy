/** Response-format selection (internal/api/renderer.go).

    The service answers in YAML when the request's content type mentions
    "yaml" in any letter case, and in JSON otherwise. The content type is the
    value gin's `Context.ContentType()` yields for the request, taken here as
    given. */
module Renderers {
  import opened GoStrings

  /** The two renderers gin is handed: each carries the data to serialise. */
  datatype Render<T> = Yaml(data: T) | Json(data: T)

  /** "yaml" occurs in the content type, letters compared without regard to
      ASCII case: the reference the selection is proved against. */
  ghost predicate MentionsYaml(contentType: string)
  {
    exists i: nat :: i + 4 <= |contentType| && SpellsYamlAt(contentType, i)
  }

  /** The four characters from `i` spell "yaml" in some mix of cases. */
  ghost predicate SpellsYamlAt(s: string, i: nat)
    requires i + 4 <= |s|
  {
    && LowerAscii(s[i]) == 'y'
    && LowerAscii(s[i + 1]) == 'a'
    && LowerAscii(s[i + 2]) == 'm'
    && LowerAscii(s[i + 3]) == 'l'
  }

  /** `renderer`: exactly one renderer, carrying the data unchanged; YAML
      precisely when the lower-cased content type contains "yaml". */
  function Renderer<T>(contentType: string, data: T): (r: Render<T>)
    ensures r.data == data
    ensures r.Yaml? <==> MentionsYaml(contentType)
  {
    LoweredYamlIsSpelledYaml(contentType);
    if Contains(ToLower(contentType), "yaml") then Yaml(data) else Json(data)
  }

  /** "yaml" occurs at `i` in the lower-cased string exactly where the original
      spells it in some mix of cases. */
  lemma LoweredYamlIsSpelledYaml(s: string)
    ensures forall i: nat :: i + 4 <= |s| ==> (OccursAt(ToLower(s), "yaml", i) <==> SpellsYamlAt(s, i))
  {
    var lowered := ToLower(s);
    forall i: nat | i + 4 <= |s|
      ensures OccursAt(lowered, "yaml", i) <==> SpellsYamlAt(s, i)
    {
      var w := lowered[i..i + 4];
      assert w[0] == LowerAscii(s[i]) && w[1] == LowerAscii(s[i + 1]);
      assert w[2] == LowerAscii(s[i + 2]) && w[3] == LowerAscii(s[i + 3]);
      if SpellsYamlAt(s, i) {
        assert w == "yaml";
      }
    }
  }

  /** Selection ignores letter case: two content types that agree once
      lower-cased choose the same renderer. */
  lemma {:induction false} RendererIgnoresCase<T>(a: string, b: string, data: T)
    requires |a| == |b|
    requires forall i :: 0 <= i < |a| ==> LowerAscii(a[i]) == LowerAscii(b[i])
    ensures Renderer(a, data) == Renderer(b, data)
  {
    if MentionsYaml(a) {
      var i: nat :| i + 4 <= |a| && SpellsYamlAt(a, i);
      assert SpellsYamlAt(b, i);
    }
    if MentionsYaml(b) {
      var i: nat :| i + 4 <= |b| && SpellsYamlAt(b, i);
      assert SpellsYamlAt(a, i);
    }
  }

  /** "application/X-YAML", as sent by clients, selects YAML. */
  lemma MixedCaseYamlSelectsYaml<T>(data: T)
    ensures Renderer("application/X-YAML", data) == Yaml(data)
  {
    assert SpellsYamlAt("application/X-YAML", 14);
  }

  /** An absent (empty) content type selects JSON. */
  lemma EmptyContentTypeSelectsJson<T>(data: T)
    ensures Renderer("", data) == Json(data)
  {
  }

  /** "application/json" selects JSON. */
  lemma JsonContentTypeSelectsJson<T>(data: T)
    ensures Renderer("application/json", data) == Json(data)
  {
    var ct := "application/json";
    assert forall k :: 0 <= k < |ct| ==> ct[k] !in "yY";
    forall i: nat | i + 4 <= |ct| ensures !SpellsYamlAt(ct, i) {
      assert ct[i] !in "yY";
    }
  }
}
