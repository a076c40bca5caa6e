/**
 * The product modal's validation schema (`productSchema`): per-field bounds
 * and string normalisations, collected into one parse that either yields
 * the parsed product or lists every failing field in schema order.
 */
module ProductSchema {
  import opened Wrappers
  import opened Strings
  import opened JsNumber
  import opened ProductInput
  import opened Lists

  /** A value a schema field may receive: `undefined`, `null` or a string. */
  datatype JsValue = Undefined | Null | Str(s: string)

  function FromOption(o: Option<string>): JsValue {
    match o
    case None => Null
    case Some(s) => Str(s)
  }

  datatype Field =
    | Status | Title | ProductType | Idca | Idcl | IdPartner | IdPrinter
    | Measure | Quantity | Price | Offer | Description

  /**
   * The parsed product. Numeric fields hold the normalised text that is
   * handed to `Number`; the conversion itself is not modelled.
   */
  datatype ProductFormData = ProductFormData(
    status: string,
    title: string,
    productType: string,
    idca: string,
    idcl: string,
    idPartner: string,
    idPrinter: Option<string>,
    image: Option<string>,
    measure: string,
    quantity: Option<string>,
    price: string,
    offer: string,
    description: Option<string>,
    remove: Option<string>,
    includes: Option<string>,
    datasheet: Option<string>
  )

  const DefaultStatus: string := "pending"

  /** `z.string().default("pending")`: absent becomes `"pending"`, `null` is rejected. */
  function StatusField(v: JsValue): (r: Option<string>)
    ensures v.Undefined? ==> r == Some(DefaultStatus)
    ensures v.Str? ==> r == Some(v.s)
    ensures v.Null? ==> r.None?
  {
    match v
    case Undefined => Some(DefaultStatus)
    case Null => None
    case Str(s) => Some(s)
  }

  /** `z.string().trim().min(lo).max(hi)`. */
  function Bounded(s: string, lo: nat, hi: nat): (r: Option<string>)
    ensures r.Some? <==> lo <= |Trim(s)| <= hi
    ensures r.Some? ==> r.value == Trim(s)
  {
    var t := Trim(s);
    if lo <= |t| <= hi then Some(t) else None
  }

  function TitleField(s: string): Option<string> { Bounded(s, 6, 100) }
  function ProductTypeField(s: string): Option<string> { Bounded(s, 4, 15) }
  function MeasureField(s: string): Option<string> { Bounded(s, 1, 3) }

  /** A bounded field accepts its own output unchanged: parsing is idempotent. */
  lemma BoundedIdempotent(s: string, lo: nat, hi: nat)
    requires Bounded(s, lo, hi).Some?
    ensures Bounded(Bounded(s, lo, hi).value, lo, hi) == Bounded(s, lo, hi)
  {
    TrimIdempotent(s);
  }

  /** `idca`/`idcl`: at least one character, and `Number` of it is not NaN. */
  function IdField(s: string): (r: Option<string>)
    ensures r.Some? <==> |s| >= 1 && IsNumeric(s)
    ensures r.Some? ==> r.value == s
  {
    if |s| >= 1 && IsNumeric(s) then Some(s) else None
  }

  /** `idPartner`: `Number` of it is not NaN (the empty string converts to 0). */
  function PartnerField(s: string): (r: Option<string>)
    ensures r.Some? <==> IsNumeric(s)
  {
    if IsNumeric(s) then Some(s) else None
  }

  /**
   * `idPrinter`: `""` and `null` become `null`; a number is kept. The
   * refinement also runs on `undefined`, where `Number(undefined)` is NaN,
   * so an absent printer is rejected.
   */
  function PrinterField(v: JsValue): (r: Option<Option<string>>)
    ensures v == Null || v == Str("") ==> r == Some(None)
    ensures v.Undefined? ==> r.None?
    ensures v.Str? && v.s != "" ==> (r.Some? <==> IsNumeric(v.s))
    ensures r.Some? && r.value.Some? ==> v == Str(r.value.value)
  {
    match v
    case Undefined => None
    case Null => Some(None)
    case Str(s) => if s == "" then Some(None) else if IsNumeric(s) then Some(Some(s)) else None
  }

  /**
   * Every `.` removed, then the first `,` made a `.`: the text never grows,
   * and without a comma no separator of either kind is left.
   */
  function NormaliseQuantity(s: string): (r: string)
    ensures |r| <= |s|
    ensures ',' !in s ==> '.' !in r && ',' !in r
  {
    var dotless := RemoveAll(s, '.');
    assert ',' !in s ==> !Contains(dotless, ",") by {
      if ',' !in s { NoCommaChar(dotless); }
    }
    ReplaceFirst(dotless, ",", ".")
  }

  /** Without a comma the normalisation only deletes the dots. */
  lemma NormaliseQuantityWithoutComma(s: string)
    requires ',' !in s
    ensures NormaliseQuantity(s) == RemoveAll(s, '.')
    ensures '.' !in NormaliseQuantity(s) && ',' !in NormaliseQuantity(s)
  {
    NoCommaChar(RemoveAll(s, '.'));
  }

  /**
   * `quantity`: `null`, `undefined` and `""` become `null`; otherwise the
   * raw text must be a number and the normalised text is kept.
   */
  function QuantityField(v: JsValue): (r: Option<Option<string>>)
    ensures v.Null? || v.Undefined? || v == Str("") ==> r == Some(None)
    ensures v.Str? && v.s != "" ==> (r.Some? <==> IsNumeric(v.s))
    ensures r.Some? && r.value.Some? ==> '.' !in r.value.value && ',' !in r.value.value
  {
    match v
    case Undefined => Some(None)
    case Null => Some(None)
    case Str(s) =>
      if s == "" then Some(None)
      else if IsNumeric(s) then
        NumericHasNoCommaOrDollar(s);
        NormaliseQuantityWithoutComma(s);
        Some(Some(NormaliseQuantity(s)))
      else None
  }

  /**
   * The first `"R$"` removed, then the first `,` made a `.`: the text never
   * grows, and one with neither a `$` nor a `,` is left as it is.
   */
  function NormaliseMoney(s: string): (r: string)
    ensures |r| <= |s|
    ensures '$' !in s && ',' !in s ==> r == s
  {
    var bare := ReplaceFirst(s, "R$", "");
    assert '$' !in s && ',' !in s ==> bare == s && !Contains(bare, ",") by {
      if '$' !in s && ',' !in s { NoDollarNoCurrency(s); NoCommaChar(s); }
    }
    ReplaceFirst(bare, ",", ".")
  }

  /**
   * `price`/`offer` as written: the refinement runs `Number` on the RAW
   * text, before the transform strips `"R$"` and rewrites `,`.
   */
  function MoneyFieldAsWritten(s: string): (r: Option<string>)
    ensures r.Some? <==> IsNumeric(s)
  {
    if IsNumeric(s) then Some(NormaliseMoney(s)) else None
  }

  /** No `"R$"` can occur in a string without a `$`. */
  lemma NoDollarNoCurrency(s: string)
    requires '$' !in s
    ensures !Contains(s, "R$")
  {
    forall i | 0 <= i <= |s|
      ensures !OccursAt(s, "R$", i)
    {
      if i + 2 <= |s| {
        assert s[i + 1] in s;
      }
    }
  }

  /** No `","` can occur in a string without a `,`. */
  lemma NoCommaChar(s: string)
    requires ',' !in s
    ensures !Contains(s, ",")
  {
    forall i | 0 <= i <= |s|
      ensures !OccursAt(s, ",", i)
    {
      if i + 1 <= |s| {
        assert s[i] in s;
      }
    }
  }

  /** The as-written transform never changes an accepted value: its rewriting is dead. */
  lemma MoneyRewriteIsDead(s: string)
    requires MoneyFieldAsWritten(s).Some?
    ensures MoneyFieldAsWritten(s) == Some(s)
  {
    NumericHasNoCommaOrDollar(s);
    NoDollarNoCurrency(s);
    NoCommaChar(s);
  }

  /**
   * `price`/`offer` as evidently intended: the currency text is normalised
   * first and the normalised text must be a number.
   */
  function MoneyField(s: string): (r: Option<string>)
    ensures r.Some? <==> IsNumeric(NormaliseMoney(s))
    ensures r.Some? ==> ',' !in r.value && '$' !in r.value
  {
    var n := NormaliseMoney(s);
    if IsNumeric(n) then
      NumericHasNoCommaOrDollar(n);
      Some(n)
    else None
  }

  /** The corrected field accepts everything the as-written one did, with the same value. */
  lemma MoneyFieldExtendsAsWritten(s: string)
    requires MoneyFieldAsWritten(s).Some?
    ensures MoneyField(s) == MoneyFieldAsWritten(s)
  {
    MoneyRewriteIsDead(s);
  }

  lemma NinetyNineIsNumeric()
    ensures IsNumeric("99.99")
  {
    var t := "99.99";
    assert !IsWhite(t[0]) && !IsWhite(t[4]);
    TrimUnpadded(t);
    assert FirstOf(t, 'e', 'E') == 5;
    assert t[..5] == t;
    assert FirstOf(t, '.', '.') == 2;
    assert AllDigits(t[..2]) && AllDigits(t[3..]);
  }

  lemma PlaceholderNormalises()
    ensures NormaliseMoney("R$99,99") == "99.99"
  {
    PlaceholderDropsCurrency();
    PlaceholderDecimalPoint();
  }

  lemma PlaceholderDropsCurrency()
    ensures ReplaceFirst("R$99,99", "R$", "") == "99,99"
  {
    var s := "R$99,99";
    assert OccursAt(s, "R$", 0);
    assert s[..0] + "" + s[2..] == s[2..];
    assert s[2..] == "99,99";
  }

  lemma PlaceholderDecimalPoint()
    ensures ReplaceFirst("99,99", ",", ".") == "99.99"
  {
    var u := "99,99";
    assert u[0..1][0] == '9' && u[1..2][0] == '9';
    assert !OccursAt(u, ",", 0) && !OccursAt(u, ",", 1) && OccursAt(u, ",", 2);
    assert u[..2] + "." + u[3..] == "99.99";
  }

  /**
   * The modal's own placeholder price `"R$99,99"` is rejected as written and
   * accepted as `99.99` by the corrected field.
   */
  lemma PlaceholderPrice()
    ensures MoneyFieldAsWritten("R$99,99").None?
    ensures MoneyField("R$99,99") == Some("99.99")
  {
    assert "R$99,99"[4] == ',';
    if IsNumeric("R$99,99") {
      NumericHasNoCommaOrDollar("R$99,99");
    }
    PlaceholderNormalises();
    NinetyNineIsNumeric();
  }

  lemma TenPointFiveIsNumeric()
    ensures IsNumeric("10.5")
  {
    var t := "10.5";
    assert !IsWhite(t[0]) && !IsWhite(t[3]);
    TrimUnpadded(t);
    assert FirstOf(t, 'e', 'E') == 4;
    assert t[..4] == t;
    assert FirstOf(t, '.', '.') == 2;
    assert AllDigits(t[..2]) && AllDigits(t[3..]);
  }

  /** The dot is read as a thousands separator: `"10.5"` becomes `"105"`. */
  lemma QuantityDropsDots()
    ensures QuantityField(Str("10.5")) == Some(Some("105"))
  {
    TenPointFiveIsNumeric();
    assert "10.5"[2] == '.';
    NormaliseQuantityWithoutComma("10.5");
    assert RemoveAll("10.5", '.') == "105";
  }

  /** `description`: absent, or at most 255 characters. */
  predicate DescriptionValid(d: Option<string>) {
    d.None? || |d.value| <= 255
  }

  /** The schema's fields in declaration order. */
  const SchemaOrder: seq<Field> :=
    [Status, Title, ProductType, Idca, Idcl, IdPartner, IdPrinter, Measure, Quantity, Price, Offer, Description]

  lemma SchemaOrderComplete(f: Field)
    ensures f in SchemaOrder
  {
  }

  /** Whether field `f` of `input` fails its check. */
  predicate Fails(input: ProductFormInput, f: Field) {
    match f
    case Status => StatusField(Str(input.status)).None?
    case Title => TitleField(input.title).None?
    case ProductType => ProductTypeField(input.productType).None?
    case Idca => IdField(input.idca).None?
    case Idcl => IdField(input.idcl).None?
    case IdPartner => PartnerField(input.idPartner).None?
    case IdPrinter => PrinterField(FromOption(input.idPrinter)).None?
    case Measure => MeasureField(input.measure).None?
    case Quantity => QuantityField(FromOption(input.quantity)).None?
    case Price => MoneyFieldAsWritten(input.price).None?
    case Offer => MoneyFieldAsWritten(input.offer).None?
    case Description => !DescriptionValid(input.description)
  }

  function IssuesOf(input: ProductFormInput, fields: seq<Field>): (r: seq<Field>)
    ensures forall f :: f in r <==> f in fields && Fails(input, f)
  {
    if fields == [] then []
    else (if Fails(input, fields[0]) then [fields[0]] else []) + IssuesOf(input, fields[1..])
  }

  function Issues(input: ProductFormInput): (r: seq<Field>)
    ensures forall f :: f in r <==> Fails(input, f)
  {
    var r := IssuesOf(input, SchemaOrder);
    forall f | Fails(input, f)
      ensures f in r
    {
      SchemaOrderComplete(f);
    }
    r
  }

  /** What each reported issue means in terms of the raw input. */
  lemma IssuesExplained(input: ProductFormInput)
    ensures Status !in Issues(input)
    ensures Title in Issues(input) <==> !(6 <= |Trim(input.title)| <= 100)
    ensures ProductType in Issues(input) <==> !(4 <= |Trim(input.productType)| <= 15)
    ensures Measure in Issues(input) <==> !(1 <= |Trim(input.measure)| <= 3)
    ensures Idca in Issues(input) <==> !(|input.idca| >= 1 && IsNumeric(input.idca))
    ensures Idcl in Issues(input) <==> !(|input.idcl| >= 1 && IsNumeric(input.idcl))
    ensures IdPartner in Issues(input) <==> !IsNumeric(input.idPartner)
    ensures IdPrinter in Issues(input) <==>
      input.idPrinter.Some? && input.idPrinter.value != "" && !IsNumeric(input.idPrinter.value)
    ensures Quantity in Issues(input) <==>
      input.quantity.Some? && input.quantity.value != "" && !IsNumeric(input.quantity.value)
    ensures Price in Issues(input) <==> !IsNumeric(input.price)
    ensures Offer in Issues(input) <==> !IsNumeric(input.offer)
    ensures Description in Issues(input) <==> input.description.Some? && |input.description.value| > 255
  {
    var r := Issues(input);
    assert Status in r <==> Fails(input, Status);
    assert Title in r <==> Fails(input, Title);
    assert ProductType in r <==> Fails(input, ProductType);
    assert Measure in r <==> Fails(input, Measure);
    assert Idca in r <==> Fails(input, Idca);
    assert Idcl in r <==> Fails(input, Idcl);
    assert IdPartner in r <==> Fails(input, IdPartner);
    assert IdPrinter in r <==> Fails(input, IdPrinter);
    assert Quantity in r <==> Fails(input, Quantity);
    assert Price in r <==> Fails(input, Price);
    assert Offer in r <==> Fails(input, Offer);
    assert Description in r <==> Fails(input, Description);
  }

  /** An accepted printer id is `null` exactly when the input is `null` or `""`. */
  lemma PrinterNullIff(v: Option<string>)
    requires PrinterField(FromOption(v)).Some?
    ensures PrinterField(FromOption(v)).value.None? <==> v.None? || v == Some("")
  {
  }

  /** An accepted quantity is `null` exactly when the input is `null` or `""`. */
  lemma QuantityNullIff(v: Option<string>)
    requires QuantityField(FromOption(v)).Some?
    ensures QuantityField(FromOption(v)).value.None? <==> v.None? || v == Some("")
  {
  }

  /** Every field passes its check. */
  predicate Valid(input: ProductFormInput) {
    && TitleField(input.title).Some?
    && ProductTypeField(input.productType).Some?
    && IdField(input.idca).Some?
    && IdField(input.idcl).Some?
    && PartnerField(input.idPartner).Some?
    && PrinterField(FromOption(input.idPrinter)).Some?
    && MeasureField(input.measure).Some?
    && QuantityField(FromOption(input.quantity)).Some?
    && MoneyFieldAsWritten(input.price).Some?
    && MoneyFieldAsWritten(input.offer).Some?
    && DescriptionValid(input.description)
  }

  /** An input with no issue is valid. */
  lemma NoIssueValid(input: ProductFormInput)
    requires Issues(input) == []
    ensures Valid(input)
  {
    var r := Issues(input);
    assert Title !in r && ProductType !in r && Idca !in r && Idcl !in r;
    assert IdPartner !in r && IdPrinter !in r && Measure !in r && Quantity !in r;
    assert Price !in r && Offer !in r && Description !in r;
  }

  /** A valid input has no issue. */
  lemma ValidNoIssue(input: ProductFormInput)
    ensures Valid(input) ==> Issues(input) == []
  {
    var r := Issues(input);
    if r != [] {
      assert Fails(input, r[0]);
    }
  }

  /** The value a fully valid input parses to. */
  function Parsed(input: ProductFormInput): (p: ProductFormData)
    requires Valid(input)
    ensures 6 <= |p.title| <= 100 && p.title == Trim(input.title)
    ensures 4 <= |p.productType| <= 15 && p.productType == Trim(input.productType)
    ensures 1 <= |p.measure| <= 3 && p.measure == Trim(input.measure)
    ensures p.status == input.status
    ensures p.idca == input.idca && p.idcl == input.idcl && p.idPartner == input.idPartner
    ensures p.idPrinter.None? <==> input.idPrinter.None? || input.idPrinter == Some("")
    ensures p.quantity.None? <==> input.quantity.None? || input.quantity == Some("")
    ensures p.quantity.Some? ==> '.' !in p.quantity.value && ',' !in p.quantity.value
    ensures p.price == input.price && p.offer == input.offer
    ensures ',' !in p.price && ',' !in p.offer
    ensures p.description.Some? ==> |p.description.value| <= 255
    ensures p.description == input.description && p.image == input.image
    ensures p.remove == input.remove && p.includes == input.includes && p.datasheet == input.datasheet
  {
    PrinterNullIff(input.idPrinter);
    QuantityNullIff(input.quantity);
    MoneyRewriteIsDead(input.price);
    MoneyRewriteIsDead(input.offer);
    NumericHasNoCommaOrDollar(input.price);
    NumericHasNoCommaOrDollar(input.offer);
    ProductFormData(
      input.status,
      TitleField(input.title).value,
      ProductTypeField(input.productType).value,
      IdField(input.idca).value,
      IdField(input.idcl).value,
      PartnerField(input.idPartner).value,
      PrinterField(FromOption(input.idPrinter)).value,
      input.image,
      MeasureField(input.measure).value,
      QuantityField(FromOption(input.quantity)).value,
      MoneyFieldAsWritten(input.price).value,
      MoneyFieldAsWritten(input.offer).value,
      input.description,
      input.remove,
      input.includes,
      input.datasheet)
  }

  /** `productSchema.parse`: the parsed product, or every failing field in schema order. */
  function Parse(input: ProductFormInput): (r: Result<ProductFormData, seq<Field>>)
    ensures r.Success? <==> Valid(input)
    ensures r.Failure? ==> r.error == Issues(input) && r.error != []
    ensures r.Success? ==> r.value == Parsed(input)
  {
    var issues := Issues(input);
    ValidNoIssue(input);
    if issues != [] then Failure(issues)
    else
      NoIssueValid(input);
      Success(Parsed(input))
  }

  /**
   * The parse as evidently intended: the currency text of price and offer
   * is normalised before the schema checks it.
   */
  function ParseCorrected(input: ProductFormInput): (r: Result<ProductFormData, seq<Field>>)
    ensures Parse(input).Success? ==> r == Parse(input)
    ensures r.Success? ==> Some(r.value.price) == MoneyField(input.price)
    ensures r.Success? ==> Some(r.value.offer) == MoneyField(input.offer)
  {
    var normalised := input.(price := NormaliseMoney(input.price), offer := NormaliseMoney(input.offer));
    assert Valid(input) ==> normalised == input by {
      if Valid(input) {
        MoneyRewriteIsDead(input.price);
        MoneyRewriteIsDead(input.offer);
      }
    }
    Parse(normalised)
  }
}
