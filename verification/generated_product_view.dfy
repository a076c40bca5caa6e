/**
 * The card that shows an AI-generated product (`AIGeneratedProduct`): the
 * analysis-method tag mapped to a title, text and colour, the conditions of
 * the two banners, and the display text of the taxonomy fields.
 */
module GeneratedProductView {
  import opened Wrappers
  import opened Strings
  import opened AiGeneration
  import Selects

  datatype Color = Purple | Blue | Yellow | Gray

  datatype MethodInfo = MethodInfo(title: string, description: string, color: Color)

  const KnownMethods: set<string> :=
    {"ai-vision", "ai-vision-multiple", "ai-vision-single-fallback", "smart-fallback", "simple-fallback"}

  /** The explanatory line under each title. */
  const AiVisionText := "Produto identificado através da análise visual da imagem com OpenAI Vision."
  const AiVisionMultipleText := "Produto identificado através da análise de múltiplas imagens com OpenAI Vision para maior precisão."
  const SingleFallbackText := "Produto identificado com análise de uma imagem após falha na análise múltipla."
  const SmartFallbackText := "Produto criado com base no nome do arquivo e padrões inteligentes."
  const SimpleFallbackText := "Produto criado com configurações padrão devido a limitações temporárias."
  const GeneratedText := "Produto criado automaticamente."

  /** `getAnalysisMethodInfo`: the `switch` on the tag, with its `default`. */
  function AnalysisMethodInfo(m: Option<string>): (r: MethodInfo)
    ensures r.color == Purple <==> m == Some("ai-vision") || m == Some("ai-vision-multiple")
    ensures r.color == Blue <==> m == Some("ai-vision-single-fallback") || m == Some("smart-fallback")
    ensures r.color == Yellow <==> m == Some("simple-fallback")
    ensures r.color == Gray <==> m.None? || m.value !in KnownMethods
    ensures r.color == Gray ==> r.title == "Produto Gerado"
  {
    if m == Some("ai-vision") then
      MethodInfo("Análise Visual com IA", AiVisionText, Purple)
    else if m == Some("ai-vision-multiple") then
      MethodInfo("Análise Visual Múltipla com IA", AiVisionMultipleText, Purple)
    else if m == Some("ai-vision-single-fallback") then
      MethodInfo("Análise Visual (Fallback)", SingleFallbackText, Blue)
    else if m == Some("smart-fallback") then
      MethodInfo("Análise Inteligente", SmartFallbackText, Blue)
    else if m == Some("simple-fallback") then
      MethodInfo("Produto Padrão", SimpleFallbackText, Yellow)
    else MethodInfo("Produto Gerado", GeneratedText, Gray)
  }

  /** The multiple-images banner: the processed count is present and above one. */
  predicate MultiImageBanner(p: GeneratedProduct) {
    p.totalImagesProcessed.Some? && p.totalImagesProcessed.value > 1
  }

  /** Inside the banner, the wording for a joint analysis of several images. */
  predicate JointAnalysisWording(p: GeneratedProduct) {
    p.imagesUsedForAnalysis.Some? && p.imagesUsedForAnalysis.value > 1
  }

  /** The rate-limit warning, shown when the flag is present and true. */
  predicate RateLimitBanner(p: GeneratedProduct) {
    p.rateLimitHit == Some(true)
  }

  /**
   * What the slot of the multiple-images banner renders. In JSX the guard
   * `total && total > 1 && (…)` evaluates to `0` when the count is `0`,
   * and React prints that number as text.
   */
  datatype ImagesSlot =
    | Nothing
    | StrayZero
    | JointAnalysis(processed: int, analysed: int) // several images analysed together
    | FirstImageOnly(processed: int)               // only the first image was analysed

  function ImagesBanner(p: GeneratedProduct): (r: ImagesSlot)
    ensures MultiImageBanner(p) <==> r.JointAnalysis? || r.FirstImageOnly?
    ensures r.StrayZero? <==> p.totalImagesProcessed == Some(0)
    ensures r.JointAnalysis? || r.FirstImageOnly? ==>
      r.processed > 1 && p.totalImagesProcessed == Some(r.processed)
    ensures r.JointAnalysis? <==> MultiImageBanner(p) && JointAnalysisWording(p)
    ensures r.JointAnalysis? ==> r.analysed > 1 && p.imagesUsedForAnalysis == Some(r.analysed)
  {
    match p.totalImagesProcessed
    case None => Nothing
    case Some(n) =>
      if n == 0 then StrayZero
      else if n <= 1 then Nothing
      else if JointAnalysisWording(p) then JointAnalysis(n, p.imagesUsedForAnalysis.value)
      else FirstImageOnly(n)
  }

  /** The joint-analysis wording lives inside the banner: without a processed count it never shows. */
  lemma JointWordingNeedsBanner(p: GeneratedProduct)
    requires JointAnalysisWording(p) && p.totalImagesProcessed.None?
    ensures !ImagesBanner(p).JointAnalysis? && ImagesBanner(p) == Nothing
  {
  }

  /** A product made from one image, or with no count, shows no banner. */
  lemma SingleImageNoBanner(p: GeneratedProduct)
    requires p.totalImagesProcessed.None? || p.totalImagesProcessed.value <= 1
    ensures !MultiImageBanner(p)
  {
  }

  /** `value.replace('_', ' ')`: only the first underscore becomes a space. */
  function DisplayName(value: string): (r: string)
    ensures |r| == |value|
    ensures Find(value, "_").None? ==> r == value
    ensures Find(value, "_").Some? ==>
      var k := Find(value, "_").value;
      r == value[..k] + " " + value[k + 1..]
  {
    ReplaceFirst(value, "_", " ")
  }

  /** The card's `getTypeLabel` reads the same table as the product list's. */
  lemma TypeLabelsOfKnownTypes()
    ensures Selects.TypeLabel("souvenir") == "Souvenir" && Selects.TypeLabel("menu") == "Menu"
    ensures Selects.TypeLabel("vestuario") == "Vestuário"
    ensures Selects.TypeLabel("") == ""
  {
  }

  /** The first underscore becomes a space; everything after it, later underscores included, is kept. */
  lemma DisplayNameAtFirstUnderscore(a: string, b: string)
    requires '_' !in a
    ensures DisplayName(a + "_" + b) == a + " " + b
  {
    var value := a + "_" + b;
    assert OccursAt(value, "_", |a|) by { assert value[|a|..|a| + 1] == "_"; }
    forall i | 0 <= i < |a|
      ensures !OccursAt(value, "_", i)
    {
      assert value[i] == a[i];
      assert a[i] in a;
    }
    assert value[..|a|] == a;
    assert value[|a| + 1..] == b;
  }

  /** For instance `"a_b_c"` reads `"a b_c"`. */
  lemma DisplayNameOfTwoUnderscores()
    ensures DisplayName("a_b_c") == "a b_c"
  {
    var s := "a_b_c";
    assert s[0..1][0] == 'a' && s[1..2] == "_";
    assert !OccursAt(s, "_", 0) && OccursAt(s, "_", 1);
    assert Contains(s, "_");
    assert Find(s, "_") == Some(1);
    assert s[..1] + " " + s[2..] == "a b_c";
  }

  /** The status line: `"pending"` reads `"Pendente"`, anything else is shown as it is. */
  function StatusText(status: string): (r: string)
    ensures status == "pending" ==> r == "Pendente"
    ensures status != "pending" ==> r == status
  {
    if status == "pending" then "Pendente" else status
  }
}
