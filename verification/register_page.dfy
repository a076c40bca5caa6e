/**
 * The product registration page (`RegisterProductPage`): the cascade that
 * clears dependent selects when a parent select changes, the option lists
 * derived from the watched values, the disabled flags, and the image
 * analysis handler that swallows the hook's failure.
 */
module RegisterPage {
  import opened Selects
  import opened Taxonomy
  import opened ProductForm
  import AiGeneration
  import Files
  import opened Wrappers

  /**
   * Setting the product type, followed by its effect: a change to a
   * non-empty type clears the classification and the category.
   */
  function SetProductType(v: FormValues, t: string): (r: FormValues)
    ensures r.productType == t
    ensures t != v.productType && t != "" ==> r.classification == "" && r.category == ""
    ensures t == v.productType || t == "" ==> r == v.(productType := t)
    ensures r.(productType := v.productType, classification := v.classification, category := v.category) == v
  {
    var w := v.(productType := t);
    if t != v.productType && t != "" then w.(classification := "", category := "") else w
  }

  /**
   * Setting the classification, followed by its effect: a change to a
   * non-empty classification clears the category. The effect of the type
   * clearing the classification to `""` does nothing, as `""` is falsy.
   */
  function SetClassification(v: FormValues, c: string): (r: FormValues)
    ensures r.classification == c
    ensures c != v.classification && c != "" ==> r.category == ""
    ensures c == v.classification || c == "" ==> r == v.(classification := c)
    ensures r.(classification := v.classification, category := v.category) == v
  {
    var w := v.(classification := c);
    if c != v.classification && c != "" then w.(category := "") else w
  }

  /** Setting the category has no effect attached. */
  function SetCategory(v: FormValues, c: string): (r: FormValues)
    ensures r.category == c && r.(category := v.category) == v
  {
    v.(category := c)
  }

  function AvailableClassifications(v: FormValues): (r: seq<SelectOption>)
    ensures v.productType == "" ==> r == []
    ensures v.productType != "" ==> r == ClassificationsFor(v.productType)
  {
    if v.productType != "" then ClassificationsFor(v.productType) else []
  }

  function AvailableCategories(v: FormValues): (r: seq<SelectOption>)
    ensures v.classification == "" ==> r == []
    ensures v.classification != "" ==> r == CategoriesFor(v.classification)
  {
    if v.classification != "" then CategoriesFor(v.classification) else []
  }

  predicate ClassificationDisabled(v: FormValues) { v.productType == "" }
  predicate CategoryDisabled(v: FormValues) { v.classification == "" }

  /** A disabled select has nothing to offer. */
  lemma DisabledSelectsAreEmpty(v: FormValues)
    ensures ClassificationDisabled(v) ==> AvailableClassifications(v) == []
    ensures CategoryDisabled(v) ==> AvailableCategories(v) == []
  {
  }

  /**
   * The selects agree with each other: each chosen value is empty or one
   * the select above it currently offers.
   */
  predicate Consistent(v: FormValues) {
    && (v.classification == "" || v.classification in Values(AvailableClassifications(v)))
    && (v.category == "" || v.category in Values(AvailableCategories(v)))
  }

  /** Choosing a non-empty type keeps the selects consistent. */
  lemma SetProductTypeConsistent(v: FormValues, t: string)
    requires Consistent(v) && t != ""
    ensures Consistent(SetProductType(v, t))
  {
  }

  /** Choosing an offered classification keeps the selects consistent and opens the category select. */
  lemma SetClassificationConsistent(v: FormValues, i: int)
    requires Consistent(v) && v.productType in Values(Taxonomy.ProductTypes)
    requires 0 <= i < |AvailableClassifications(v)|
    ensures Consistent(SetClassification(v, AvailableClassifications(v)[i].value))
    ensures |AvailableCategories(SetClassification(v, AvailableClassifications(v)[i].value))| == 3
  {
    var c := AvailableClassifications(v)[i].value;
    assert c in Values(AvailableClassifications(v));
    TaxonomyClosed(v.productType, i);
  }

  /** Choosing an offered category keeps the selects consistent. */
  lemma SetCategoryConsistent(v: FormValues, c: string)
    requires Consistent(v)
    requires c == "" || c in Values(AvailableCategories(v))
    ensures Consistent(SetCategory(v, c))
  {
  }

  /**
   * Emptying the type leaves the old classification in place while the
   * classification select offers nothing.
   */
  lemma ClearingTypeKeepsClassification(v: FormValues)
    requires v.classification != ""
    ensures SetProductType(v, "").classification == v.classification
    ensures AvailableClassifications(SetProductType(v, "")) == []
    ensures !Consistent(SetProductType(v, ""))
  {
  }

  /** How the page's handler finishes. */
  datatype Completion = Normal | Thrown(message: string)

  /**
   * `handleImageAnalysis`: runs the hook's analysis and catches its
   * rejection, so the page's handler always completes normally.
   */
  function HandleImageAnalysis(s: AiGeneration.AiState, files: seq<Files.File>, response: Wrappers.Response<AiGeneration.GeneratedProduct>)
    : (r: (AiGeneration.AiState, Completion))
    ensures r.0 == AiGeneration.Analyze(s, files, response).state
    ensures r.1 == Normal
    ensures !s.isGenerating && response.Err? ==> r.0.generationError.Some?
  {
    (AiGeneration.Analyze(s, files, response).state, Normal)
  }

  /**
   * The same call as the page makes it at run time. The handler passes one
   * `File` where the hook expects an array, and the build does not stop on
   * type errors. A `File` has no `length`, so the hook takes the
   * multiple-image branch, and `imageFiles.forEach` throws a `TypeError`
   * inside the `try` before any request is built. The error has no
   * `response`, so the hook stores its default message.
   */
  function AnalyzeBareFile(s: AiGeneration.AiState): (r: AiGeneration.AnalysisRun)
    ensures s.isGenerating ==> r == AiGeneration.AnalysisRun(s, None, AiGeneration.Ignored)
    ensures r.request.None?
    ensures !s.isGenerating ==>
      && r.state.generationError == Some(AiGeneration.DefaultError)
      && r.state.generatedProduct.None? && !r.state.isGenerating
      && r.outcome == AiGeneration.Threw(AiGeneration.DefaultError)
  {
    if s.isGenerating then AiGeneration.AnalysisRun(s, None, AiGeneration.Ignored)
    else
      var b := AiGeneration.Begin(s);
      AiGeneration.AnalysisRun(
        b.(isGenerating := false, generationError := Some(AiGeneration.DefaultError)),
        None, AiGeneration.Threw(AiGeneration.DefaultError))
  }

  /**
   * Whatever the server would have answered, the page ends where a failed
   * request without a server message would leave it, but no request is sent.
   */
  lemma BareFileNeverReachesServer(s: AiGeneration.AiState, f: Files.File, response: Wrappers.Response<AiGeneration.GeneratedProduct>)
    requires !s.isGenerating
    ensures AnalyzeBareFile(s).state == AiGeneration.Analyze(s, [f], Wrappers.Err(None)).state
    ensures AnalyzeBareFile(s).request.None? && AiGeneration.Analyze(s, [f], response).request.Some?
    ensures AiGeneration.Analyze(s, [f], response).request.value.endpoint == AiGeneration.SingleEndpoint
  {
  }

  /**
   * Wrapping the file in an array, as the hook's parameter type asks, sends
   * it to the single-image endpoint and shows the server's product.
   */
  lemma WrappedFileReachesServer(s: AiGeneration.AiState, f: Files.File, p: AiGeneration.GeneratedProduct)
    requires !s.isGenerating
    ensures AiGeneration.Analyze(s, [f], Ok(p)).request ==
      Some(AiGeneration.Request(AiGeneration.SingleEndpoint, [AiGeneration.Part("image", f)]))
    ensures HandleImageAnalysis(s, [f], Ok(p)) == (AiGeneration.AiState(false, None, Some(p)), Normal)
  {
    assert AiGeneration.BuildRequest([f]).parts == [AiGeneration.Part("image", f)];
  }

  /** `handleImageAnalysis` as it runs: the thrown error is caught, and the card shows the default error. */
  function HandleImageAnalysisAsRun(s: AiGeneration.AiState): (r: (AiGeneration.AiState, Completion))
    ensures r.0 == AnalyzeBareFile(s).state
    ensures r.1 == Normal
    ensures !s.isGenerating ==> r.0 == AiGeneration.AiState(false, Some(AiGeneration.DefaultError), None)
  {
    (AnalyzeBareFile(s).state, Normal)
  }
}
