/**
 * The optional add-on editor (`useOpcionalList`): rows of
 * `{ingrediente, valor}`, saved into the draft's `include` field as
 * `"<ingrediente> = <valor>"` fragments.
 */
module OptionalList {
  import opened Wrappers
  import opened Strings
  import opened Lists
  import opened Encoding
  import opened ProductInput

  /** One add-on row: `ingredient` is `ingrediente`, `value` is `valor`. */
  datatype OptionalRow = OptionalRow(ingredient: string, value: string)

  datatype OptionalField = Ingredient | Value

  const EmptyRow: OptionalRow := OptionalRow("", "")

  /** The editor starts with one empty row. */
  const Initial: seq<OptionalRow> := [EmptyRow]

  /** `handleAddOpcional`: one empty row at the end, the others untouched. */
  function Add(rows: seq<OptionalRow>): (r: seq<OptionalRow>)
    ensures |r| == |rows| + 1
    ensures r[..|rows|] == rows && r[|rows|] == EmptyRow
  {
    rows + [EmptyRow]
  }

  /** `handleRemoveOpcional`: deletes exactly position `index`, later rows shift down. */
  function Remove(rows: seq<OptionalRow>, index: int): (r: seq<OptionalRow>)
    ensures 0 <= index < |rows| ==> |r| == |rows| - 1
    ensures 0 <= index < |rows| ==> forall j :: 0 <= j < index ==> r[j] == rows[j]
    ensures 0 <= index < |rows| ==> forall j :: index <= j < |r| ==> r[j] == rows[j + 1]
    ensures !(0 <= index < |rows|) ==> r == rows
  {
    RemoveAt(rows, index)
  }

  /** `handleChangeOpcional`: `updated[index][field] = value` needs an existing row. */
  function Change(rows: seq<OptionalRow>, index: int, field: OptionalField, v: string): (r: seq<OptionalRow>)
    requires 0 <= index < |rows|
    ensures |r| == |rows|
    ensures forall j :: 0 <= j < |rows| && j != index ==> r[j] == rows[j]
    ensures field == Ingredient ==> r[index] == OptionalRow(v, rows[index].value)
    ensures field == Value ==> r[index] == OptionalRow(rows[index].ingredient, v)
  {
    match field
    case Ingredient => rows[index := rows[index].(ingredient := v)]
    case Value => rows[index := rows[index].(value := v)]
  }

  /** A row takes part in the encoding when both fields are non-blank. */
  predicate Kept(row: OptionalRow) {
    Trim(row.ingredient) != "" && Trim(row.value) != ""
  }

  /** The rows the encoding is made of, in order. */
  function KeptRows(rows: seq<OptionalRow>): seq<OptionalRow> {
    Filter(rows, Kept)
  }

  /** One fragment per kept row, written with the untrimmed text. */
  function Fragments(rows: seq<OptionalRow>): (r: seq<string>)
    ensures |r| == |KeptRows(rows)|
    ensures forall i :: 0 <= i < |r| ==> r[i] != ""
  {
    var kept := KeptRows(rows);
    seq(|kept|, i requires 0 <= i < |kept| => Pair(kept[i].ingredient, kept[i].value))
  }

  /** The text `handleSaveOpcionais` computes, `null` for the empty string. */
  function Encode(rows: seq<OptionalRow>): (r: Option<string>)
    ensures r.None? <==> forall i :: 0 <= i < |rows| ==> !Kept(rows[i])
  {
    var fragments := Fragments(rows);
    EncodeNullIff(fragments);
    assert (exists i :: 0 <= i < |rows| && Kept(rows[i])) ==> |KeptRows(rows)| > 0;
    Encoding.Encode(fragments)
  }

  /** `handleSaveOpcionais`: writes the encoding into `include` and nothing else. */
  function Save(draft: ProductFormInput, rows: seq<OptionalRow>): (d: ProductFormInput)
    ensures d.(includes := draft.includes) == draft
    ensures d.includes.None? <==> forall i :: 0 <= i < |rows| ==> !Kept(rows[i])
    ensures d.includes.Some? ==> d.includes.value != ""
  {
    draft.(includes := Encode(rows))
  }

  /**
   * The encoding reads back into the kept rows, in order, as long as no
   * fragment holds `", "` and no ingredient holds `" = "`.
   */
  lemma DecodeSaved(rows: seq<OptionalRow>)
    requires forall r :: r in KeptRows(rows) ==> !Contains(Pair(r.ingredient, r.value), ", ")
    requires forall r :: r in KeptRows(rows) ==> SepFree(r.ingredient, " = ")
    ensures |Decode(Encode(rows))| == |KeptRows(rows)|
    ensures forall i :: 0 <= i < |KeptRows(rows)| ==>
      SplitPair(Decode(Encode(rows))[i]) == Some((KeptRows(rows)[i].ingredient, KeptRows(rows)[i].value))
  {
    var kept := KeptRows(rows);
    var fragments := Fragments(rows);
    assert forall i :: 0 <= i < |fragments| ==> fragments[i] == Pair(kept[i].ingredient, kept[i].value);
    DecodeEncode(fragments);
    forall i | 0 <= i < |kept|
      ensures SplitPair(fragments[i]) == Some((kept[i].ingredient, kept[i].value))
    {
      SplitPairOfPair(kept[i].ingredient, kept[i].value);
    }
  }

  lemma ExampleTrims()
    ensures Trim("cheese") == "cheese" && Trim("2.50") == "2.50" && Trim("") == ""
  {
    assert !IsWhite("cheese"[0]) && !IsWhite("cheese"[5]);
    assert !IsWhite("2.50"[0]) && !IsWhite("2.50"[3]);
    TrimUnpadded("cheese");
    TrimUnpadded("2.50");
    TrimUnpadded("");
  }

  /** Which rows of the example are kept. */
  lemma ExampleKeptRows(rows: seq<OptionalRow>)
    requires rows == [OptionalRow("cheese", "2.50"), OptionalRow("", "1.00")]
    ensures KeptRows(rows) == [rows[0]]
  {
    ExampleTrims();
    assert Kept(rows[0]) && !Kept(rows[1]);
    var tail := rows[1..];
    assert tail == [rows[1]] && tail[1..] == [];
    assert Filter(tail[1..], Kept) == [];
    assert Filter(tail, Kept) == [];
  }

  lemma ExampleFragments(rows: seq<OptionalRow>)
    requires rows == [OptionalRow("cheese", "2.50"), OptionalRow("", "1.00")]
    ensures Fragments(rows) == ["cheese = 2.50"]
  {
    ExampleKeptRows(rows);
    var kept := KeptRows(rows);
    assert Fragments(rows)[0] == Pair(kept[0].ingredient, kept[0].value);
    ExamplePair();
  }

  lemma ExamplePair()
    ensures Pair("cheese", "2.50") == "cheese = 2.50"
  {
    var p := Pair("cheese", "2.50");
    assert p[..6] == "cheese" && p[6..9] == " = " && p[9..] == "2.50";
    assert p == p[..6] + p[6..9] + p[9..];
  }

  /** A row with a blank ingredient is dropped; the other is kept verbatim. */
  lemma SaveExample(rows: seq<OptionalRow>)
    requires rows == [OptionalRow("cheese", "2.50"), OptionalRow("", "1.00")]
    ensures Encode(rows) == Some("cheese = 2.50")
  {
    ExampleFragments(rows);
    var f := Fragments(rows);
    assert Join(f, ", ") == f[0];
  }

  /** The initial editor saves `null`. */
  lemma InitialSavesNull()
    ensures Encode(Initial).None?
  {
    assert Trim("") == "";
  }
}
