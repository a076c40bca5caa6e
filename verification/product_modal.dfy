/**
 * The product registration modal (`ProductModal`): the draft, the category
 * chosen for the classification select, and the three row editors. Every
 * handler is a pure step from one state to the next; submitting parses the
 * draft and leaves the state as it was.
 */
module ProductModal {
  import opened Wrappers
  import opened Selects
  import Strings
  import opened ModalOptions
  import opened ProductInput
  import opened ProductSchema
  import RemovalList
  import OptionalList
  import DatasheetList

  datatype ModalState = ModalState(
    form: ProductFormInput,
    selectedCategory: string, // a category value such as "gastronomy", or ""
    removals: seq<RemovalList.RemovalRow>,
    optionals: seq<OptionalList.OptionalRow>,
    datasheet: seq<DatasheetList.DatasheetItem>
  )

  const EmptyDraft: ProductFormInput := ProductFormInput(
    "", "", "", "", "", None, None, "", None, "", "", None, None, None, None, "pending")

  /**
   * The state when the modal mounts. The datasheet editor is created while
   * the product type is still `""`, so its first row has the non-menu shape.
   */
  const Initial: ModalState := ModalState(
    EmptyDraft, "", RemovalList.Initial, OptionalList.Initial, DatasheetList.Initial(EmptyDraft.productType))

  /** The options of the category select: none until a product type is chosen. */
  function CategoryOptions(s: ModalState): (r: seq<SelectOption>)
    ensures s.form.productType == "" ==> r == []
  {
    if s.form.productType != "" then CategoryOptionsFor(s.form.productType) else []
  }

  /** The empty-type guard only repeats what the lookup does for an unknown key. */
  lemma CategoryOptionsAreLookup(s: ModalState)
    ensures CategoryOptions(s) == CategoryOptionsFor(s.form.productType)
  {
  }

  /** The options of the classification select follow the selected category. */
  function ClassificationOptions(s: ModalState): (r: seq<SelectOption>)
    ensures s.selectedCategory == "" ==> r == []
  {
    ClassificationOptionsFor(s.selectedCategory)
  }

  /** Choosing a product type: the type is set and the selected category cleared. */
  function SelectProductType(s: ModalState, v: string): (r: ModalState)
    ensures r.form == s.form.(productType := v)
    ensures r.selectedCategory == ""
    ensures r.(form := s.form, selectedCategory := s.selectedCategory) == s
    ensures ClassificationOptions(r) == []
    ensures CategoryOptions(r) == CategoryOptionsFor(v)
  {
    s.(form := s.form.(productType := v), selectedCategory := "")
  }

  /** The category entries the current product type offers, `[]` for an unknown type. */
  function OfferedCategories(productType: string): seq<Entry> {
    if productType in CategoriesByProductType then CategoriesByProductType[productType] else []
  }

  /**
   * Choosing a category by id: `idca` takes the id, and the selected
   * category becomes the value of the offered entry with that id, or `""`
   * when no offered entry has it.
   */
  function SelectCategory(s: ModalState, id: string): (r: ModalState)
    ensures r.form == s.form.(idca := id)
    ensures r.(form := s.form, selectedCategory := s.selectedCategory) == s
    ensures r.selectedCategory == "" <==>
      forall i :: 0 <= i < |OfferedCategories(s.form.productType)| ==>
        OfferedCategories(s.form.productType)[i].id != id
    ensures r.selectedCategory != "" ==>
      exists e :: e in OfferedCategories(s.form.productType) && e.id == id && e.value == r.selectedCategory
  {
    var found := FindBy(OfferedCategories(s.form.productType), IdOf, id);
    s.(form := s.form.(idca := id), selectedCategory := if found.Some? then found.value.value else "")
  }

  /** A known product type offers one category, and that category has classifications. */
  lemma OfferedCategoryClassified(productType: string)
    requires productType in CategoriesByProductType
    ensures |OfferedCategories(productType)| == 1
    ensures OfferedCategories(productType)[0].value in CategoryClassifications
  {
    CategoriesByProductTypeResolved();
  }

  /** Picking any category the select offers unlocks that category's classifications. */
  lemma OfferedCategoryUnlocksClassifications(s: ModalState, i: int)
    requires 0 <= i < |CategoryOptions(s)|
    ensures SelectCategory(s, CategoryOptions(s)[i].value).form.idca == CategoryOptions(s)[i].value
    ensures ClassificationOptions(SelectCategory(s, CategoryOptions(s)[i].value)) != []
  {
    var pt := s.form.productType;
    CategoriesByProductTypeResolved();
    assert pt in CategoriesByProductType;
    var offered := OfferedCategories(pt);
    OfferedCategoryClassified(pt);
    assert CategoryOptions(s)[i].value == offered[0].id;
    var r := SelectCategory(s, offered[0].id);
    assert r.selectedCategory != "";
    assert r.selectedCategory == offered[0].value;
  }

  /** Choosing a classification sets `idcl` and nothing else. */
  function SelectClassification(s: ModalState, id: string): (r: ModalState)
    ensures r.form == s.form.(idcl := id)
    ensures r.(form := s.form) == s
  {
    s.(form := s.form.(idcl := id))
  }

  /** A change of product type keeps the ids chosen under the previous type. */
  lemma ProductTypeChangeKeepsIds(s: ModalState, v: string)
    ensures SelectProductType(s, v).form.idca == s.form.idca
    ensures SelectProductType(s, v).form.idcl == s.form.idcl
  {
  }

  /** The draft fields edited directly by an input or a select. */
  datatype DraftField =
    | TitleText | StatusChoice | PartnerChoice | QuantityText | MeasureChoice
    | PriceText | OfferText | DescriptionText | PrinterChoice | ImageUrl

  /** A directly edited field of the draft, `null` as `None`. */
  function Read(form: ProductFormInput, f: DraftField): Option<string> {
    match f
    case TitleText => Some(form.title)
    case StatusChoice => Some(form.status)
    case PartnerChoice => Some(form.idPartner)
    case QuantityText => form.quantity
    case MeasureChoice => Some(form.measure)
    case PriceText => Some(form.price)
    case OfferText => Some(form.offer)
    case DescriptionText => form.description
    case PrinterChoice => form.idPrinter
    case ImageUrl => form.image
  }

  /** An input's or select's `onChange`, or the upload's completion for the image. */
  function Edit(s: ModalState, f: DraftField, v: string): (r: ModalState)
    ensures Read(r.form, f) == Some(v)
    ensures forall g :: g != f ==> Read(r.form, g) == Read(s.form, g)
    ensures r.form.productType == s.form.productType && r.form.idca == s.form.idca && r.form.idcl == s.form.idcl
    ensures r.form.remove == s.form.remove && r.form.includes == s.form.includes && r.form.datasheet == s.form.datasheet
    ensures r.(form := s.form) == s
  {
    var d := s.form;
    s.(form := match f
      case TitleText => d.(title := v)
      case StatusChoice => d.(status := v)
      case PartnerChoice => d.(idPartner := v)
      case QuantityText => d.(quantity := Some(v))
      case MeasureChoice => d.(measure := v)
      case PriceText => d.(price := v)
      case OfferText => d.(offer := v)
      case DescriptionText => d.(description := Some(v))
      case PrinterChoice => d.(idPrinter := Some(v))
      case ImageUrl => d.(image := Some(v)))
  }

  /** The optional and removal editors are shown for menus only; the datasheet always. */
  predicate MenuEditorsShown(s: ModalState) {
    s.form.productType == "menu"
  }

  /** Events of the three row editors. */
  datatype EditorEvent =
    | AddRemoval | RemoveRemoval(index: int) | ChangeRemoval(index: int, v: string) | SaveRemovals
    | AddOptional | RemoveOptional(index: int)
    | ChangeOptional(index: int, optionalField: OptionalList.OptionalField, v: string) | SaveOptionals
    | AddDatasheet | RemoveDatasheet(index: int)
    | ChangeDatasheet(index: int, datasheetField: DatasheetList.DatasheetField, v: string) | SaveDatasheet

  /** Events of the removal and optional editors, which are rendered for menus only. */
  predicate MenuEditorEvent(e: EditorEvent) {
    e.AddRemoval? || e.RemoveRemoval? || e.ChangeRemoval? || e.SaveRemovals? ||
    e.AddOptional? || e.RemoveOptional? || e.ChangeOptional? || e.SaveOptionals?
  }

  /**
   * An event can only come from an editor on screen, and a change event
   * needs an existing row, as `updated[index][field] = value` does.
   */
  predicate EventAllowed(s: ModalState, e: EditorEvent) {
    (MenuEditorEvent(e) ==> MenuEditorsShown(s)) &&
    match e
    case ChangeRemoval(i, _) => 0 <= i < |s.removals|
    case ChangeOptional(i, _, _) => 0 <= i < |s.optionals|
    case ChangeDatasheet(i, _, _) => 0 <= i < |s.datasheet|
    case _ => true
  }

  /**
   * One editor event. Saving writes one encoded field of the draft; the
   * datasheet uses the product type of the moment, both for new rows and
   * for the encoding.
   */
  function Step(s: ModalState, e: EditorEvent): (r: ModalState)
    requires EventAllowed(s, e)
    ensures r.selectedCategory == s.selectedCategory
    ensures e.SaveRemovals? ==> r.form == RemovalList.Save(s.form, s.removals)
    ensures e.SaveOptionals? ==> r.form == OptionalList.Save(s.form, s.optionals)
    ensures e.SaveDatasheet? ==> r.form == DatasheetList.Save(s.form, s.datasheet, s.form.productType)
    ensures !(e.SaveRemovals? || e.SaveOptionals? || e.SaveDatasheet?) ==> r.form == s.form
    ensures e.SaveRemovals? || e.SaveOptionals? || e.SaveDatasheet? ==>
      r.(form := s.form) == s
    ensures r.form.productType == s.form.productType
    // each editor event touches its own list and nothing else
    ensures e.AddRemoval? || e.RemoveRemoval? || e.ChangeRemoval? ==> r.(removals := s.removals) == s
    ensures e.AddOptional? || e.RemoveOptional? || e.ChangeOptional? ==> r.(optionals := s.optionals) == s
    ensures e.AddDatasheet? || e.RemoveDatasheet? || e.ChangeDatasheet? ==> r.(datasheet := s.datasheet) == s
    ensures e.AddRemoval? ==> r.removals == RemovalList.Add(s.removals)
    ensures e.RemoveRemoval? ==> r.removals == RemovalList.Remove(s.removals, e.index)
    ensures e.ChangeRemoval? ==> r.removals == RemovalList.Change(s.removals, e.index, e.v)
    ensures e.AddOptional? ==> r.optionals == OptionalList.Add(s.optionals)
    ensures e.RemoveOptional? ==> r.optionals == OptionalList.Remove(s.optionals, e.index)
    ensures e.ChangeOptional? ==>
      r.optionals == OptionalList.Change(s.optionals, e.index, e.optionalField, e.v)
    ensures e.AddDatasheet? ==>
      r.datasheet == DatasheetList.Add(s.datasheet, s.form.productType)
    ensures e.RemoveDatasheet? ==> r.datasheet == DatasheetList.Remove(s.datasheet, e.index)
    ensures e.ChangeDatasheet? ==>
      r.datasheet == DatasheetList.Change(s.datasheet, e.index, e.datasheetField, e.v)
  {
    match e
    case AddRemoval => s.(removals := RemovalList.Add(s.removals))
    case RemoveRemoval(i) => s.(removals := RemovalList.Remove(s.removals, i))
    case ChangeRemoval(i, v) => s.(removals := RemovalList.Change(s.removals, i, v))
    case SaveRemovals => s.(form := RemovalList.Save(s.form, s.removals))
    case AddOptional => s.(optionals := OptionalList.Add(s.optionals))
    case RemoveOptional(i) => s.(optionals := OptionalList.Remove(s.optionals, i))
    case ChangeOptional(i, f, v) => s.(optionals := OptionalList.Change(s.optionals, i, f, v))
    case SaveOptionals => s.(form := OptionalList.Save(s.form, s.optionals))
    case AddDatasheet => s.(datasheet := DatasheetList.Add(s.datasheet, s.form.productType))
    case RemoveDatasheet(i) => s.(datasheet := DatasheetList.Remove(s.datasheet, i))
    case ChangeDatasheet(i, f, v) => s.(datasheet := DatasheetList.Change(s.datasheet, i, f, v))
    case SaveDatasheet => s.(form := DatasheetList.Save(s.form, s.datasheet, s.form.productType))
  }

  /**
   * Outside menus the removal and optional editors are not on screen, so
   * no event reaching the modal changes their rows.
   */
  lemma HiddenEditorsKeepRows(s: ModalState, e: EditorEvent)
    requires EventAllowed(s, e) && !MenuEditorsShown(s)
    ensures Step(s, e).removals == s.removals && Step(s, e).optionals == s.optionals
    ensures !MenuEditorsShown(Step(s, e))
  {
  }

  /** Saving one editor never touches the fields the other two write. */
  lemma SavesAreIndependent(s: ModalState)
    ensures MenuEditorsShown(s) ==> Step(s, SaveRemovals).form.includes == s.form.includes
    ensures MenuEditorsShown(s) ==> Step(s, SaveRemovals).form.datasheet == s.form.datasheet
    ensures MenuEditorsShown(s) ==> Step(s, SaveOptionals).form.remove == s.form.remove
    ensures MenuEditorsShown(s) ==> Step(s, SaveOptionals).form.datasheet == s.form.datasheet
    ensures Step(s, SaveDatasheet).form.remove == s.form.remove
    ensures Step(s, SaveDatasheet).form.includes == s.form.includes
  {
  }

  /** What a submission does: nothing leaves the form when parsing fails. */
  datatype Submission = NotSent(issues: seq<Field>) | Sent(body: ProductFormData)

  /**
   * `handleFormSubmit`: the parsed draft is posted; a parse failure is only
   * logged. The state is left unchanged either way, so it is not returned.
   */
  function Submit(s: ModalState): (r: Submission)
    ensures r.Sent? <==> Valid(s.form)
    ensures r.Sent? ==> r.body == Parsed(s.form)
    ensures r.NotSent? ==> r.issues == Issues(s.form) && r.issues != []
  {
    match Parse(s.form)
    case Success(p) => Sent(p)
    case Failure(issues) => NotSent(issues)
  }

  /**
   * On mount nothing is selectable below the product type, the menu editors
   * are hidden, the datasheet row is non-menu shaped, and a submission is
   * refused for the empty title.
   */
  lemma InitialState()
    ensures CategoryOptions(Initial) == [] && ClassificationOptions(Initial) == []
    ensures !MenuEditorsShown(Initial)
    ensures Initial.datasheet == [DatasheetList.PlainRow]
    ensures Submit(Initial).NotSent? && Title in Submit(Initial).issues
  {
    IssuesExplained(EmptyDraft);
    assert Strings.Trim("") == "";
  }
}
