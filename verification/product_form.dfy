/**
 * The register page's form hook (`useProductForm`): the form values and
 * their validation, the payload sent to `/products`, and the submit state
 * machine around the optional image upload and the post.
 */
module ProductForm {
  import opened Wrappers
  import opened Lists
  import opened Files
  import Taxonomy

  /** The form's values; an optional field that was never registered is `None`. */
  datatype FormValues = FormValues(
    title: string,
    productType: string,
    classification: string,
    category: string,
    idPartner: string,
    idPrinter: Option<string>,
    measure: string,
    quantity: Option<string>,
    price: string,
    offer: string,
    description: Option<string>,
    remove: Option<string>,
    includes: Option<string>, // the `include` field
    datasheet: Option<string>,
    status: string
  )

  /** `defaultValues`: every text empty, status `"pending"`. */
  const Defaults: FormValues := FormValues(
    "", "", "", "", "", Some(""), "", Some(""), "", "", Some(""), Some(""), Some(""), Some(""), "pending")

  datatype FormField = Title | ProductType | Classification | Category | IdPartner | Measure | Price | Offer

  const FormFields: seq<FormField> := [Title, ProductType, Classification, Category, IdPartner, Measure, Price, Offer]

  /** Whether field `f` breaks its bound; the other fields accept any string. */
  predicate Fails(v: FormValues, f: FormField) {
    match f
    case Title => !(2 <= |v.title| <= 100)
    case ProductType => |v.productType| < 1
    case Classification => |v.classification| < 1
    case Category => |v.category| < 1
    case IdPartner => |v.idPartner| < 1
    case Measure => |v.measure| > 3
    case Price => |v.price| < 1
    case Offer => |v.offer| < 1
  }

  /** The fields the resolver reports. */
  function Errors(v: FormValues): (r: set<FormField>)
    ensures forall f :: f in r <==> Fails(v, f)
  {
    var r := set f | f in FormFields && Fails(v, f);
    forall f | Fails(v, f)
      ensures f in r
    {
      assert f in FormFields;
    }
    r
  }

  /** `productFormSchema` accepts the values. Title length is not trimmed here. */
  predicate Valid(v: FormValues) {
    && 2 <= |v.title| <= 100
    && v.productType != "" && v.classification != "" && v.category != "" && v.idPartner != ""
    && |v.measure| <= 3
    && v.price != "" && v.offer != ""
  }

  lemma ValidIffNoErrors(v: FormValues)
    ensures Valid(v) <==> Errors(v) == {}
  {
    if !Valid(v) {
      var f :| f in FormFields && Fails(v, f);
      assert f in Errors(v);
    }
  }

  /** The defaults fail exactly the required fields; `measure` is within bound. */
  lemma DefaultsInvalid()
    ensures Errors(Defaults) == {Title, ProductType, Classification, Category, IdPartner, Price, Offer}
  {
  }

  /** The UTF-16 code units of one character, as `split('')` and `charCodeAt` see them. */
  function CodeUnits(c: char): (r: seq<nat>)
    ensures 1 <= |r| <= 2
    ensures forall i :: 0 <= i < |r| ==> r[i] < 0x10000
    ensures (c as int < 0x10000) <==> r == [c as int]
  {
    var v := c as int;
    if v < 0x10000 then [v]
    else [0xD800 + (v - 0x10000) / 0x400, 0xDC00 + (v - 0x10000) % 0x400]
  }

  function UnitTotal(c: char): nat {
    var u := CodeUnits(c);
    if |u| == 1 then u[0] else u[0] + u[1]
  }

  /** `s.split('').reduce((a, b) => a + b.charCodeAt(0), 0)`. */
  function CodeUnitSum(s: string): nat {
    if |s| == 0 then 0 else UnitTotal(s[0]) + CodeUnitSum(s[1..])
  }

  lemma {:induction false} CodeUnitSumAppend(s: string, t: string)
    ensures CodeUnitSum(s + t) == CodeUnitSum(s) + CodeUnitSum(t)
  {
    if |s| > 0 {
      assert (s + t)[1..] == s[1..] + t;
      CodeUnitSumAppend(s[1..], t);
    } else {
      assert s + t == t;
    }
  }

  /**
   * The id the payload derives from a category or classification value:
   * the code-unit sum mod 1000 (`Math.abs` has nothing to do on a sum of
   * non-negative codes).
   */
  function IdHash(s: string): (r: nat)
    ensures r < 1000
    ensures r == CodeUnitSum(s) % 1000
  {
    CodeUnitSum(s) % 1000
  }

  /** The hash ignores the order of the two halves of a value. */
  lemma IdHashOrderBlind(s: string, t: string)
    ensures IdHash(s + t) == IdHash(t + s)
  {
    CodeUnitSumAppend(s, t);
    CodeUnitSumAppend(t, s);
  }

  /** `"selo"` (under `"colecionavel"`) and `"sopa"` (under `"entrada"`) are categories of the table. */
  lemma SeloAndSopaListed()
    ensures "selo" in Taxonomy.AllCategories() && "sopa" in Taxonomy.AllCategories()
  {
    Taxonomy.ClassificationsOfKnownTypes();
    Taxonomy.CategoriesOfKnownClassifications();
    var colecionavel := Taxonomy.ClassificationsFor("souvenir")[1].value;
    assert colecionavel == "colecionavel";
    assert Taxonomy.CategoriesFor(colecionavel)[1].value == "selo";
    Taxonomy.OfferedValuesListed("souvenir", 1, 1);
    var entrada := Taxonomy.ClassificationsFor("menu")[0].value;
    assert entrada == "entrada";
    assert Taxonomy.CategoriesFor(entrada)[1].value == "sopa";
    Taxonomy.OfferedValuesListed("menu", 0, 1);
  }

  lemma SeloAndSopaSums()
    ensures CodeUnitSum("selo") == 435 && CodeUnitSum("sopa") == 435
  {
    var selo := "selo";
    assert UnitTotal('s') == 115 && UnitTotal('e') == 101 && UnitTotal('l') == 108 && UnitTotal('o') == 111;
    assert UnitTotal('p') == 112 && UnitTotal('a') == 97;
    assert CodeUnitSum("o") == 111;
    assert "lo"[1..] == "o" && CodeUnitSum("lo") == 219;
    assert "elo"[1..] == "lo" && CodeUnitSum("elo") == 320;
    assert selo[1..] == "elo";
    var sopa := "sopa";
    assert CodeUnitSum("a") == 97;
    assert "pa"[1..] == "a" && CodeUnitSum("pa") == 209;
    assert "opa"[1..] == "pa" && CodeUnitSum("opa") == 320;
    assert sopa[1..] == "opa";
  }

  /** Two distinct categories of the table, `"selo"` and `"sopa"`, both hash to 435. */
  lemma IdHashCollides()
    ensures "selo" != "sopa" && IdHash("selo") == IdHash("sopa") == 435
  {
    SeloAndSopaSums();
    assert "selo"[1] != "sopa"[1];
  }

  /**
   * The id a value of `values` is given when ids are to be unique: its
   * position in the table; a value outside the table keeps its hash.
   */
  function TableId(values: seq<string>, s: string): (r: nat)
    requires |values| <= 1000
    ensures r < 1000
    ensures s in values ==> r == IndexOf(values, s)
    ensures s !in values ==> r == IdHash(s)
  {
    if s in values then IndexOf(values, s) else IdHash(s)
  }

  /** Distinct values of the table get distinct ids. */
  lemma TableIdUnique(values: seq<string>, a: string, b: string)
    requires |values| <= 1000
    requires a in values && b in values && a != b
    ensures TableId(values, a) != TableId(values, b)
  {
  }

  /** The corrected category id: a category of the table reads back from its id. */
  function CorrectedCategoryId(category: string): (r: nat)
    ensures r < 1000
    ensures category in Taxonomy.AllCategories() ==>
      r < |Taxonomy.AllCategories()| && Taxonomy.AllCategories()[r] == category
  {
    TableId(Taxonomy.AllCategories(), category)
  }

  /** The corrected classification id: a classification of the table reads back from its id. */
  function CorrectedClassificationId(classification: string): (r: nat)
    ensures r < 1000
    ensures classification in Taxonomy.AllClassifications() ==>
      r < |Taxonomy.AllClassifications()| && Taxonomy.AllClassifications()[r] == classification
  {
    TableId(Taxonomy.AllClassifications(), classification)
  }

  /** Distinct categories of the table, `"selo"` and `"sopa"` among them, get distinct corrected ids. */
  lemma CategoryIdUnique(a: string, b: string)
    requires a in Taxonomy.AllCategories() && b in Taxonomy.AllCategories() && a != b
    ensures CorrectedCategoryId(a) != CorrectedCategoryId(b)
  {
    TableIdUnique(Taxonomy.AllCategories(), a, b);
  }

  /** Distinct classifications of the table get distinct corrected ids. */
  lemma ClassificationIdUnique(a: string, b: string)
    requires a in Taxonomy.AllClassifications() && b in Taxonomy.AllClassifications() && a != b
    ensures CorrectedClassificationId(a) != CorrectedClassificationId(b)
  {
    TableIdUnique(Taxonomy.AllClassifications(), a, b);
  }

  /** `x || null` for an optional text: `""` and absent both become `null`. */
  function EmptyToNull(o: Option<string>): (r: Option<string>)
    ensures r.None? <==> o.None? || o == Some("")
    ensures r.Some? ==> r == o
  {
    if o.None? || o.value == "" then None else o
  }

  /**
   * The body posted to `/products`. Numeric fields carry the text handed to
   * `parseInt`/`parseFloat`; the ids are numbers already.
   */
  datatype Payload = Payload(
    title: string,
    productType: string,
    idca: nat,
    idcl: nat,
    idPartner: string,
    idPrinter: Option<string>,
    measure: string,
    quantity: Option<string>,
    price: string,
    offer: string,
    description: Option<string>,
    remove: Option<string>,
    includes: Option<string>,
    datasheet: Option<string>,
    status: string,
    image: Option<string>
  )

  /**
   * The body `onSubmit` posts, as written: the ids are the hashes of the
   * category and classification values.
   */
  function BuildPayload(v: FormValues, imageUrl: Option<string>): (p: Payload)
    ensures p.idca < 1000 && p.idcl < 1000
    ensures p.idca == IdHash(v.category) && p.idcl == IdHash(v.classification)
    ensures p.idPrinter.None? <==> v.idPrinter.None? || v.idPrinter == Some("")
    ensures p.quantity.None? <==> v.quantity.None? || v.quantity == Some("")
    ensures p.description.None? <==> v.description.None? || v.description == Some("")
    ensures p.remove.None? <==> v.remove.None? || v.remove == Some("")
    ensures p.includes.None? <==> v.includes.None? || v.includes == Some("")
    ensures p.datasheet.None? <==> v.datasheet.None? || v.datasheet == Some("")
    ensures p.idPrinter.Some? ==> p.idPrinter == v.idPrinter
    ensures p.quantity.Some? ==> p.quantity == v.quantity
    ensures p.description.Some? ==> p.description == v.description
    ensures p.remove.Some? ==> p.remove == v.remove
    ensures p.includes.Some? ==> p.includes == v.includes
    ensures p.datasheet.Some? ==> p.datasheet == v.datasheet
    ensures p.image == imageUrl
    ensures p.title == v.title && p.productType == v.productType && p.status == v.status
    ensures p.idPartner == v.idPartner && p.measure == v.measure
    ensures p.price == v.price && p.offer == v.offer
  {
    Payload(
      v.title, v.productType, IdHash(v.category), IdHash(v.classification),
      v.idPartner, EmptyToNull(v.idPrinter), v.measure, EmptyToNull(v.quantity),
      v.price, v.offer, EmptyToNull(v.description), EmptyToNull(v.remove),
      EmptyToNull(v.includes), EmptyToNull(v.datasheet), v.status, imageUrl)
  }

  /** Forms that differ only in choosing `"selo"` or `"sopa"` post the same category id. */
  lemma SeloAndSopaPostSameId(v: FormValues, imageUrl: Option<string>)
    ensures BuildPayload(v.(category := "selo"), imageUrl).idca == BuildPayload(v.(category := "sopa"), imageUrl).idca
  {
    IdHashCollides();
  }

  /** The body as evidently intended: the same, with ids that tell the table's values apart. */
  function BuildPayloadCorrected(v: FormValues, imageUrl: Option<string>): (p: Payload)
    ensures p.(idca := 0, idcl := 0) == BuildPayload(v, imageUrl).(idca := 0, idcl := 0)
    ensures p.idca == CorrectedCategoryId(v.category) && p.idcl == CorrectedClassificationId(v.classification)
  {
    BuildPayload(v, imageUrl).(idca := CorrectedCategoryId(v.category), idcl := CorrectedClassificationId(v.classification))
  }

  /** With the corrected ids, choosing `"selo"` or `"sopa"` posts different category ids. */
  lemma CorrectedPayloadSeparatesSeloAndSopa(v: FormValues, imageUrl: Option<string>)
    ensures BuildPayloadCorrected(v.(category := "selo"), imageUrl).idca
      != BuildPayloadCorrected(v.(category := "sopa"), imageUrl).idca
  {
    SeloAndSopaListed();
    CategoryIdUnique("selo", "sopa");
  }

  datatype FormState = FormState(
    values: FormValues,
    isSubmitting: bool,
    submitError: Option<string>,
    submitSuccess: bool,
    selectedImage: Option<File>
  )

  const Initial: FormState := FormState(Defaults, false, None, false, None)

  const DefaultError: string := "Erro ao cadastrar produto"

  /** The three flags `onSubmit` sets before any request. */
  function Begin(s: FormState): (r: FormState)
    ensures r.isSubmitting && r.submitError.None? && !r.submitSuccess
    ensures r.values == s.values && r.selectedImage == s.selectedImage
  {
    s.(isSubmitting := true, submitError := None, submitSuccess := false)
  }

  /** The `catch` and `finally` of a failed request: the values and the image stay. */
  function Failed(b: FormState, message: Option<string>): (r: FormState)
    ensures r.values == b.values && r.selectedImage == b.selectedImage
    ensures r.submitError == Some(ErrorMessage(message, DefaultError)) && r.submitError.value != ""
    ensures !r.isSubmitting && r.submitSuccess == b.submitSuccess
  {
    b.(isSubmitting := false, submitError := Some(ErrorMessage(message, DefaultError)))
  }

  /** The end of a successful post and its `finally`: the form back to its defaults. */
  function Succeeded(b: FormState): (r: FormState)
    requires b.submitError.None?
    ensures r == FormState(Defaults, false, None, true, None)
  {
    b.(isSubmitting := false, submitSuccess := true, selectedImage := None, values := Defaults)
  }

  /** What one submission did: its final state, the file uploaded, the payload posted. */
  datatype SubmitRun = SubmitRun(final: FormState, uploaded: Option<File>, posted: Option<Payload>)

  /**
   * `onSubmit`, with the upload's and the post's responses as inputs. The
   * upload happens only when an image is selected, and its failure skips
   * the post. The upload's data is the `imageUrl` it returned, if any.
   */
  function OnSubmit(s: FormState, upload: Response<Option<string>>, post: Response<()>): (r: SubmitRun)
    ensures !r.final.isSubmitting
    ensures r.uploaded == s.selectedImage
    ensures s.selectedImage.None? ==> r.posted == Some(BuildPayload(s.values, None))
    ensures s.selectedImage.Some? && upload.Ok? ==> r.posted == Some(BuildPayload(s.values, upload.data))
    ensures s.selectedImage.Some? && upload.Err? ==> r.posted.None?
    ensures r.final.submitSuccess <==> r.posted.Some? && post.Ok?
    ensures r.final.submitSuccess ==>
      r.final == FormState(Defaults, false, None, true, None)
    ensures !r.final.submitSuccess ==>
      && r.final.values == s.values && r.final.selectedImage == s.selectedImage
      && r.final.submitError.Some? && r.final.submitError.value != ""
    ensures !r.final.submitSuccess && r.posted.None? ==>
      r.final.submitError == Some(ErrorMessage(upload.message, DefaultError))
    ensures !r.final.submitSuccess && r.posted.Some? ==>
      r.final.submitError == Some(ErrorMessage(post.message, DefaultError))
  {
    var b := Begin(s);
    if s.selectedImage.Some? && upload.Err? then
      SubmitRun(Failed(b, upload.message), s.selectedImage, None)
    else
      var payload := BuildPayload(s.values, if s.selectedImage.Some? then upload.data else None);
      match post
      case Ok(_) => SubmitRun(Succeeded(b), s.selectedImage, Some(payload))
      case Err(m) => SubmitRun(Failed(b, m), s.selectedImage, Some(payload))
  }

  /** `form.handleSubmit(onSubmit)`: invalid values reach neither the state nor the network. */
  function HandleSubmit(s: FormState, upload: Response<Option<string>>, post: Response<()>): (r: SubmitRun)
    ensures !Valid(s.values) ==> r == SubmitRun(s, None, None)
    ensures Valid(s.values) ==> r == OnSubmit(s, upload, post)
    ensures r.posted.Some? ==> Valid(s.values)
  {
    if Valid(s.values) then OnSubmit(s, upload, post) else SubmitRun(s, None, None)
  }

  /** A failed submission leaves everything needed to retry it with the same body. */
  lemma FailedSubmitRetries(s: FormState, upload: Response<Option<string>>, post: Response<()>)
    requires Valid(s.values)
    requires !HandleSubmit(s, upload, post).final.submitSuccess
    ensures HandleSubmit(HandleSubmit(s, upload, post).final, upload, post) == HandleSubmit(s, upload, post)
  {
  }

  function ResetSuccess(s: FormState): (r: FormState)
    ensures !r.submitSuccess && r.(submitSuccess := s.submitSuccess) == s
  {
    s.(submitSuccess := false)
  }

  function HandleImageSelect(s: FormState, file: Option<File>): (r: FormState)
    ensures r.selectedImage == file && r.(selectedImage := s.selectedImage) == s
  {
    s.(selectedImage := file)
  }
}
