/**
 * The image-analysis hook (`useAIProductGeneration`): a re-entrancy guard,
 * one multipart request whose endpoint and field name depend on the number
 * of images, and the reduction of a failure to one message.
 */
module AiGeneration {
  import opened Wrappers
  import opened Files

  /**
   * The generated product as the views read it. Prices, the sku and the
   * creation time are carried by the response but used by nothing modelled.
   */
  datatype GeneratedProduct = GeneratedProduct(
    title: string,
    productType: string,
    description: string,
    status: string,
    originalClassification: string,
    originalCategory: string,
    totalImagesProcessed: Option<int>,
    imagesUsedForAnalysis: Option<int>,
    analysisMethod: Option<string>,
    rateLimitHit: Option<bool> // read by the view, passed through by the hook
  )

  datatype AiState = AiState(
    isGenerating: bool,
    generationError: Option<string>,
    generatedProduct: Option<GeneratedProduct>
  )

  const Initial: AiState := AiState(false, None, None)

  const SingleEndpoint: string := "/products/generate-ai"
  const MultipleEndpoint: string := "/products/generate-ai-multiple"
  const DefaultError: string := "Erro ao analisar imagem com IA"

  /** One multipart part: the field name and the file. */
  datatype Part = Part(field: string, file: File)

  datatype Request = Request(endpoint: string, parts: seq<Part>)

  /**
   * The one request a call sends: a single image under `image` to the
   * single-image endpoint; any other count, zero included, every file in
   * order under `images` to the multiple-image endpoint.
   */
  function BuildRequest(files: seq<File>): (r: Request)
    ensures r.endpoint == SingleEndpoint <==> |files| == 1
    ensures r.endpoint == SingleEndpoint || r.endpoint == MultipleEndpoint
    ensures |r.parts| == |files|
    ensures forall i :: 0 <= i < |files| ==> r.parts[i].file == files[i]
    ensures forall i :: 0 <= i < |files| ==> r.parts[i].field == (if |files| == 1 then "image" else "images")
  {
    if |files| == 1 then Request(SingleEndpoint, [Part("image", files[0])])
    else Request(MultipleEndpoint, seq(|files|, i requires 0 <= i < |files| => Part("images", files[i])))
  }

  /** An empty selection still posts, to the multiple-image endpoint, with no part. */
  lemma NoFilesPostMultiple()
    ensures BuildRequest([]) == Request(MultipleEndpoint, [])
  {
  }

  /** The state once a call passes the guard: running, with error and product cleared. */
  function Begin(s: AiState): (r: AiState)
    ensures r == AiState(true, None, None)
  {
    s.(isGenerating := true, generationError := None, generatedProduct := None)
  }

  /** How a call ends for its caller. */
  datatype Outcome = Ignored | Returned(product: GeneratedProduct) | Threw(message: string)

  datatype AnalysisRun = AnalysisRun(state: AiState, request: Option<Request>, outcome: Outcome)

  /**
   * `analyzeProductImage`, with the response as an input. A call made while
   * another runs is ignored outright; otherwise the response decides between
   * the product and the error, and `finally` releases the guard.
   */
  function Analyze(s: AiState, files: seq<File>, response: Response<GeneratedProduct>): (r: AnalysisRun)
    ensures s.isGenerating ==> r == AnalysisRun(s, None, Ignored)
    ensures !s.isGenerating ==> r.request == Some(BuildRequest(files)) && !r.state.isGenerating
    ensures !s.isGenerating && response.Ok? ==>
      r.state == AiState(false, None, Some(response.data)) && r.outcome == Returned(response.data)
    ensures !s.isGenerating && response.Err? ==>
      && r.outcome == Threw(ErrorMessage(response.message, DefaultError))
      && r.state == AiState(false, Some(r.outcome.message), None)
      && r.outcome.message != ""
  {
    if s.isGenerating then AnalysisRun(s, None, Ignored)
    else
      var b := Begin(s);
      var request := BuildRequest(files);
      match response
      case Ok(p) => AnalysisRun(b.(isGenerating := false, generatedProduct := Some(p)), Some(request), Returned(p))
      case Err(m) =>
        var message := ErrorMessage(m, DefaultError);
        AnalysisRun(b.(isGenerating := false, generationError := Some(message)), Some(request), Threw(message))
  }

  /** A second call while the first one is in flight sends nothing and changes nothing. */
  lemma OverlappingCallIgnored(s: AiState, files: seq<File>, response: Response<GeneratedProduct>)
    ensures Analyze(Begin(s), files, response) == AnalysisRun(Begin(s), None, Ignored)
  {
  }

  /** After any call that ran, the guard is released and the next call is served. */
  lemma NextCallServed(s: AiState, files: seq<File>, response: Response<GeneratedProduct>,
                       files2: seq<File>, response2: Response<GeneratedProduct>)
    requires !s.isGenerating
    ensures Analyze(Analyze(s, files, response).state, files2, response2).request.Some?
    ensures !Analyze(Analyze(s, files, response).state, files2, response2).outcome.Ignored?
  {
  }

  /** `clearGeneration`: product and error cleared, the guard untouched. */
  function ClearGeneration(s: AiState): (r: AiState)
    ensures r.generatedProduct.None? && r.generationError.None?
    ensures r.isGenerating == s.isGenerating
  {
    s.(generatedProduct := None, generationError := None)
  }

  /** Clearing after a finished call returns the hook to its initial state. */
  lemma ClearAfterRunIsInitial(s: AiState, files: seq<File>, response: Response<GeneratedProduct>)
    requires !s.isGenerating
    ensures ClearGeneration(Analyze(s, files, response).state) == Initial
  {
  }
}
