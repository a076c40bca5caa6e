/**
 * The technical-datasheet editor (`useDatasheetList`). A row is a record of
 * five optional fields; its shape is fixed when the row is created, by the
 * product type at that moment, but the encoding mode is the product type at
 * save time. Setting a field absent from the row's shape adds it, as
 * assigning a property of a JavaScript object does.
 */
module DatasheetList {
  import opened Wrappers
  import opened Strings
  import opened Lists
  import opened Encoding
  import opened ProductInput

  /**
   * `{tipo?, quantidade?, unidade?, variacao?, estoque?}`: `kind`,
   * `quantity` and `unit` for a menu, `variant` and `stock` otherwise.
   */
  datatype DatasheetItem = DatasheetItem(
    kind: Option<string>,
    quantity: Option<string>,
    unit: Option<string>,
    variant: Option<string>,
    stock: Option<string>
  )

  datatype DatasheetField = Kind | Quantity | Unit | Variant | Stock

  const MenuRow: DatasheetItem := DatasheetItem(Some(""), Some(""), Some(""), None, None)
  const PlainRow: DatasheetItem := DatasheetItem(None, None, None, Some(""), Some(""))

  predicate IsMenu(productType: string) { productType == "menu" }

  /** The empty row a call creates, its shape chosen by the product type of that moment. */
  function NewRow(productType: string): (r: DatasheetItem)
    ensures r.kind.Some? <==> IsMenu(productType)
    ensures r.variant.Some? <==> !IsMenu(productType)
  {
    if IsMenu(productType) then MenuRow else PlainRow
  }

  /** The editor starts with one row shaped by the product type at creation. */
  function Initial(productType: string): (r: seq<DatasheetItem>)
    ensures |r| == 1
    ensures IsMenu(productType) ==> r[0] == MenuRow
    ensures !IsMenu(productType) ==> r[0] == PlainRow
  {
    [NewRow(productType)]
  }

  /** `handleAddDatasheet`: appends one empty row shaped by the current product type. */
  function Add(rows: seq<DatasheetItem>, productType: string): (r: seq<DatasheetItem>)
    ensures |r| == |rows| + 1 && r[..|rows|] == rows
    ensures IsMenu(productType) ==> r[|rows|] == MenuRow
    ensures !IsMenu(productType) ==> r[|rows|] == PlainRow
  {
    rows + [NewRow(productType)]
  }

  /** `handleRemoveDatasheet`: out-of-range indices are a no-op. */
  function Remove(rows: seq<DatasheetItem>, index: int): (r: seq<DatasheetItem>)
    ensures 0 <= index < |rows| ==> |r| == |rows| - 1
    ensures 0 <= index < |rows| ==> forall j :: 0 <= j < index ==> r[j] == rows[j]
    ensures 0 <= index < |rows| ==> forall j :: index <= j < |r| ==> r[j] == rows[j + 1]
    ensures !(0 <= index < |rows|) ==> r == rows
  {
    RemoveAt(rows, index)
  }

  /** The value of one field of a row. */
  function Get(item: DatasheetItem, field: DatasheetField): Option<string> {
    match field
    case Kind => item.kind
    case Quantity => item.quantity
    case Unit => item.unit
    case Variant => item.variant
    case Stock => item.stock
  }

  /** `handleChangeDatasheet`: sets one field of one existing row. */
  function Change(rows: seq<DatasheetItem>, index: int, field: DatasheetField, v: string): (r: seq<DatasheetItem>)
    requires 0 <= index < |rows|
    ensures |r| == |rows|
    ensures forall j :: 0 <= j < |rows| && j != index ==> r[j] == rows[j]
    ensures Get(r[index], field) == Some(v)
    ensures forall f :: f != field ==> Get(r[index], f) == Get(rows[index], f)
  {
    var item := rows[index];
    var updated := match field
      case Kind => item.(kind := Some(v))
      case Quantity => item.(quantity := Some(v))
      case Unit => item.(unit := Some(v))
      case Variant => item.(variant := Some(v))
      case Stock => item.(stock := Some(v));
    rows[index := updated]
  }

  /** `field?.trim()` is truthy: the field is present and not blank. */
  predicate Filled(o: Option<string>) {
    o.Some? && Trim(o.value) != ""
  }

  /** In the given mode, whether a row takes part in the encoding. */
  predicate Kept(productType: string, item: DatasheetItem) {
    if IsMenu(productType) then Filled(item.kind) && Filled(item.quantity) && Filled(item.unit)
    else Filled(item.variant) && Filled(item.stock)
  }

  function KeptRows(rows: seq<DatasheetItem>, productType: string): seq<DatasheetItem> {
    Filter(rows, item => Kept(productType, item))
  }

  /** `"<tipo> = <quantidade> <unidade>"` or `"<variacao> = <estoque>"`. */
  function Fragment(productType: string, item: DatasheetItem): string
    requires Kept(productType, item)
  {
    if IsMenu(productType) then Pair(item.kind.value, item.quantity.value + " " + item.unit.value)
    else Pair(item.variant.value, item.stock.value)
  }

  function Fragments(rows: seq<DatasheetItem>, productType: string): (r: seq<string>)
    ensures |r| == |KeptRows(rows, productType)|
    ensures forall i :: 0 <= i < |r| ==> r[i] != ""
  {
    var kept := KeptRows(rows, productType);
    seq(|kept|, i requires 0 <= i < |kept| => Fragment(productType, kept[i]))
  }

  /** The text `handleSaveDatasheet` computes in the mode of `productType`. */
  function Encode(rows: seq<DatasheetItem>, productType: string): (r: Option<string>)
    ensures r.None? <==> forall i :: 0 <= i < |rows| ==> !Kept(productType, rows[i])
  {
    var fragments := Fragments(rows, productType);
    EncodeNullIff(fragments);
    assert (exists i :: 0 <= i < |rows| && Kept(productType, rows[i])) ==> |KeptRows(rows, productType)| > 0;
    Encoding.Encode(fragments)
  }

  /** `handleSaveDatasheet`: writes the encoding into `datasheet` and nothing else. */
  function Save(draft: ProductFormInput, rows: seq<DatasheetItem>, productType: string): (d: ProductFormInput)
    ensures d.(datasheet := draft.datasheet) == draft
    ensures d.datasheet.None? <==> forall i :: 0 <= i < |rows| ==> !Kept(productType, rows[i])
  {
    draft.(datasheet := Encode(rows, productType))
  }

  /**
   * A row created in the other mode and never given the missing fields is
   * dropped: it lacks the fields the saving mode requires.
   */
  lemma OtherShapeDropped(created: string, saved: string, item: DatasheetItem)
    requires IsMenu(created) != IsMenu(saved)
    requires forall f :: Get(item, f).Some? <==> Get(NewRow(created), f).Some?
    ensures !Kept(saved, item)
  {
    if IsMenu(saved) { assert Get(item, Kind).None?; } else { assert Get(item, Variant).None?; }
  }

  /**
   * The encoding reads back, fragment by fragment, into the kept rows' label
   * and value text, when no fragment holds `", "` and no label holds `" = "`.
   */
  lemma DecodeSaved(rows: seq<DatasheetItem>, productType: string)
    requires forall i :: 0 <= i < |KeptRows(rows, productType)| ==>
      !Contains(Fragment(productType, KeptRows(rows, productType)[i]), ", ")
    requires forall i :: 0 <= i < |KeptRows(rows, productType)| ==>
      var item := KeptRows(rows, productType)[i];
      SepFree(if IsMenu(productType) then item.kind.value else item.variant.value, " = ")
    ensures |Decode(Encode(rows, productType))| == |KeptRows(rows, productType)|
    ensures forall i :: 0 <= i < |KeptRows(rows, productType)| ==>
      var item := KeptRows(rows, productType)[i];
      SplitPair(Decode(Encode(rows, productType))[i]) ==
        if IsMenu(productType) then Some((item.kind.value, item.quantity.value + " " + item.unit.value))
        else Some((item.variant.value, item.stock.value))
  {
    var kept := KeptRows(rows, productType);
    var fragments := Fragments(rows, productType);
    DecodeEncode(fragments);
    forall i | 0 <= i < |kept|
      ensures SplitPair(fragments[i]) ==
        if IsMenu(productType) then Some((kept[i].kind.value, kept[i].quantity.value + " " + kept[i].unit.value))
        else Some((kept[i].variant.value, kept[i].stock.value))
    {
      if IsMenu(productType) {
        SplitPairOfPair(kept[i].kind.value, kept[i].quantity.value + " " + kept[i].unit.value);
      } else {
        SplitPairOfPair(kept[i].variant.value, kept[i].stock.value);
      }
    }
  }

  lemma ExampleTrims()
    ensures Trim("flour") == "flour" && Trim("500") == "500" && Trim("g") == "g"
  {
    assert !IsWhite("flour"[0]) && !IsWhite("flour"[4]);
    assert !IsWhite("500"[0]) && !IsWhite("500"[2]);
    assert !IsWhite("g"[0]);
    TrimUnpadded("flour");
    TrimUnpadded("500");
    TrimUnpadded("g");
  }

  lemma ExampleFragments(rows: seq<DatasheetItem>)
    requires rows == [DatasheetItem(Some("flour"), Some("500"), Some("g"), None, None)]
    ensures Fragments(rows, "menu") == ["flour = 500 g"]
  {
    ExampleTrims();
    assert Kept("menu", rows[0]);
    assert KeptRows(rows, "menu") == rows;
    assert Fragment("menu", rows[0]) == "flour" + " = " + ("500" + " " + "g");
    assert "flour" + " = " + ("500" + " " + "g") == "flour = 500 g";
  }

  /** A complete menu row encodes to `"flour = 500 g"`. */
  lemma SaveExample(rows: seq<DatasheetItem>)
    requires rows == [DatasheetItem(Some("flour"), Some("500"), Some("g"), None, None)]
    ensures Encode(rows, "menu") == Some("flour = 500 g")
  {
    ExampleFragments(rows);
  }
}
