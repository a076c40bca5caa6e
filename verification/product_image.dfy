/**
 * `ProductImage`: what the component renders for a product image source.
 * The configured API address (`NEXT_PUBLIC_API_URL`) is a parameter.
 */
module ProductImage {
  import opened Wrappers
  import opened Strings

  const DefaultApiUrl := "http://localhost:3333"

  /** The placeholder box, a plain `<img>` for data URLs, or the optimised `<Image>`. */
  datatype View = Placeholder | PlainImage(src: string) | OptimisedImage(url: string)

  /** `process.env.NEXT_PUBLIC_API_URL || 'http://localhost:3333'`. */
  function ApiUrl(env: Option<string>): (r: string)
    ensures env.Some? && env.value != "" ==> r == env.value
    ensures env.None? || env.value == "" ==> r == DefaultApiUrl
  {
    if env.Some? && env.value != "" then env.value else DefaultApiUrl
  }

  /** Sources beginning with `http` are used as they are; others are paths on the API. */
  function ImageUrl(src: string, apiUrl: string): (r: string)
    ensures StartsWith(src, "http") ==> r == src
    ensures !StartsWith(src, "http") ==> r == apiUrl + src
  {
    if StartsWith(src, "http") then src else apiUrl + src
  }

  /**
   * The rendered view for a source (`null` as `None`) once an image error
   * has or has not happened. An empty source counts as missing.
   */
  function Render(src: Option<string>, imageError: bool, env: Option<string>): (r: View)
    ensures r.Placeholder? <==> src.None? || src.value == "" || imageError
    ensures r.PlainImage? <==> !r.Placeholder? && StartsWith(src.value, "data:")
    ensures r.PlainImage? ==> r.src == src.value
    ensures r.OptimisedImage? ==> r.url == ImageUrl(src.value, ApiUrl(env))
  {
    if src.None? || src.value == "" || imageError then Placeholder
    else if StartsWith(src.value, "data:") then PlainImage(src.value)
    else OptimisedImage(ImageUrl(src.value, ApiUrl(env)))
  }

  /** The component's state: whether an image failed to load. */
  datatype ImageState = ImageState(imageError: bool)

  const Initial: ImageState := ImageState(false)

  /** `onError`: the error flag is set, whatever it was. */
  function OnError(s: ImageState): (r: ImageState)
    ensures r.imageError
  {
    s.(imageError := true)
  }

  /**
   * The flag is never cleared: after a load error the placeholder is shown
   * for every later source, including a new one passed to the same instance.
   */
  lemma ErrorIsPermanent(s: ImageState, src: Option<string>, env: Option<string>)
    ensures Render(src, OnError(s).imageError, env) == Placeholder
    ensures OnError(OnError(s)) == OnError(s)
  {
  }

  /** The resolved URL always ends with the source. */
  lemma ImageUrlEndsWithSource(src: string, apiUrl: string)
    ensures |ImageUrl(src, apiUrl)| >= |src|
    ensures ImageUrl(src, apiUrl)[|ImageUrl(src, apiUrl)| - |src|..] == src
  {
    var r := ImageUrl(src, apiUrl);
    if !StartsWith(src, "http") {
      assert r == apiUrl + src;
      assert r[|apiUrl|..] == src;
    }
  }

  /** A URL that is already resolved resolves to itself when the API address is absolute. */
  lemma ImageUrlIdempotent(src: string, apiUrl: string)
    requires StartsWith(apiUrl, "http")
    ensures ImageUrl(ImageUrl(src, apiUrl), apiUrl) == ImageUrl(src, apiUrl)
  {
    if !StartsWith(src, "http") {
      var r := apiUrl + src;
      assert r[0..4] == apiUrl[0..4];
    }
  }

  /** A relative path with no configured address resolves against the local API. */
  lemma RelativePathUsesDefault(src: string)
    requires src != "" && !StartsWith(src, "http") && !StartsWith(src, "data:")
    ensures Render(Some(src), false, None) == OptimisedImage("http://localhost:3333" + src)
  {
  }
}
