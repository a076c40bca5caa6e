/**
 * The removed-ingredient editor (`useRemoveList`): rows of `{ingrediente}`,
 * saved into the draft's `remove` field as the trimmed names.
 */
module RemovalList {
  import opened Wrappers
  import opened Strings
  import opened Lists
  import opened Encoding
  import opened ProductInput

  /** One removal row: `ingredient` is `ingrediente`. */
  datatype RemovalRow = RemovalRow(ingredient: string)

  const EmptyRow: RemovalRow := RemovalRow("")

  /** The editor starts with one empty row. */
  const Initial: seq<RemovalRow> := [EmptyRow]

  /** `handleAddRemover`: one empty row at the end, the others untouched. */
  function Add(rows: seq<RemovalRow>): (r: seq<RemovalRow>)
    ensures |r| == |rows| + 1
    ensures r[..|rows|] == rows && r[|rows|] == EmptyRow
  {
    rows + [EmptyRow]
  }

  /** `handleRemoveRemover`: out-of-range indices are a no-op. */
  function Remove(rows: seq<RemovalRow>, index: int): (r: seq<RemovalRow>)
    ensures 0 <= index < |rows| ==> |r| == |rows| - 1
    ensures 0 <= index < |rows| ==> forall j :: 0 <= j < index ==> r[j] == rows[j]
    ensures 0 <= index < |rows| ==> forall j :: index <= j < |r| ==> r[j] == rows[j + 1]
    ensures !(0 <= index < |rows|) ==> r == rows
  {
    RemoveAt(rows, index)
  }

  /** `handleChangeRemover`: only row `index` changes; the row must exist. */
  function Change(rows: seq<RemovalRow>, index: int, v: string): (r: seq<RemovalRow>)
    requires 0 <= index < |rows|
    ensures |r| == |rows|
    ensures forall j :: 0 <= j < |rows| && j != index ==> r[j] == rows[j]
    ensures r[index].ingredient == v
  {
    rows[index := RemovalRow(v)]
  }

  predicate Kept(row: RemovalRow) {
    Trim(row.ingredient) != ""
  }

  function KeptRows(rows: seq<RemovalRow>): seq<RemovalRow> {
    Filter(rows, Kept)
  }

  /** One fragment per kept row: the trimmed name. */
  function Fragments(rows: seq<RemovalRow>): (r: seq<string>)
    ensures |r| == |KeptRows(rows)|
    ensures forall i :: 0 <= i < |r| ==> r[i] != "" && r[i] == Trim(r[i])
  {
    var kept := KeptRows(rows);
    seq(|kept|, i requires 0 <= i < |kept| => TrimIdempotent(kept[i].ingredient); Trim(kept[i].ingredient))
  }

  /** The text `handleSaveRemover` computes, `null` for the empty string. */
  function Encode(rows: seq<RemovalRow>): (r: Option<string>)
    ensures r.None? <==> forall i :: 0 <= i < |rows| ==> !Kept(rows[i])
  {
    var fragments := Fragments(rows);
    EncodeNullIff(fragments);
    assert (exists i :: 0 <= i < |rows| && Kept(rows[i])) ==> |KeptRows(rows)| > 0;
    Encoding.Encode(fragments)
  }

  /** `handleSaveRemover`: writes the encoding into `remove` and nothing else. */
  function Save(draft: ProductFormInput, rows: seq<RemovalRow>): (d: ProductFormInput)
    ensures d.(remove := draft.remove) == draft
    ensures d.remove.None? <==> forall i :: 0 <= i < |rows| ==> !Kept(rows[i])
    ensures d.remove.Some? ==> d.remove.value != ""
  {
    draft.(remove := Encode(rows))
  }

  /** The encoding reads back into the trimmed kept names when none holds `", "`. */
  lemma DecodeSaved(rows: seq<RemovalRow>)
    requires forall r :: r in KeptRows(rows) ==> !Contains(Trim(r.ingredient), ", ")
    ensures |Decode(Encode(rows))| == |KeptRows(rows)|
    ensures forall i :: 0 <= i < |KeptRows(rows)| ==>
      Decode(Encode(rows))[i] == Trim(KeptRows(rows)[i].ingredient)
  {
    DecodeEncode(Fragments(rows));
  }

  lemma ExampleTrims()
    ensures Trim("onion") == "onion" && Trim("pickles") == "pickles"
  {
    assert !IsWhite("onion"[0]) && !IsWhite("onion"[4]);
    assert !IsWhite("pickles"[0]) && !IsWhite("pickles"[6]);
    TrimUnpadded("onion");
    TrimUnpadded("pickles");
  }

  lemma ExampleFragments(rows: seq<RemovalRow>)
    requires rows == [RemovalRow("onion"), RemovalRow("pickles")]
    ensures Fragments(rows) == ["onion", "pickles"]
  {
    ExampleTrims();
    assert Kept(rows[0]) && Kept(rows[1]);
    assert KeptRows(rows) == rows;
  }

  /** Two names encode to `"onion, pickles"`. */
  lemma SaveExample(rows: seq<RemovalRow>)
    requires rows == [RemovalRow("onion"), RemovalRow("pickles")]
    ensures Encode(rows) == Some("onion, pickles")
  {
    ExampleFragments(rows);
    var f := Fragments(rows);
    assert f[1..] == ["pickles"];
    assert Join(f, ", ") == "onion" + ", " + "pickles";
    ExampleText();
  }

  lemma ExampleText()
    ensures "onion" + ", " + "pickles" == "onion, pickles"
  {
    var t := "onion, pickles";
    assert t[..5] == "onion" && t[5..7] == ", " && t[7..] == "pickles";
    assert t == t[..5] + t[5..7] + t[7..];
  }
}
