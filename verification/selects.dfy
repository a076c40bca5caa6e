/** The `{value, label}` option shape every select of the UI renders; `text` is the `label`. */
module Selects {

  datatype SelectOption = SelectOption(value: string, text: string)

  /** The values of a list of options, in order. */
  function Values(options: seq<SelectOption>): (r: seq<string>)
    ensures |r| == |options|
    ensures forall i :: 0 <= i < |options| ==> r[i] == options[i].value
  {
    seq(|options|, i requires 0 <= i < |options| => options[i].value)
  }

  /**
   * `table[key] || key`: the label of a known key, any other key shown as
   * it is (an empty label would fall back to the key as well).
   */
  function LabelOr(table: map<string, string>, key: string): (r: string)
    ensures key !in table ==> r == key
    ensures key in table && table[key] != "" ==> r == table[key]
  {
    if key in table && table[key] != "" then table[key] else key
  }

  /**
   * The product-type label table; app/page.tsx and ai-generated-product.tsx
   * each declare this same table.
   */
  const TypeLabels: map<string, string> :=
    map["souvenir" := "Souvenir", "menu" := "Menu", "vestuario" := "Vestuário"]

  /** `getTypeLabel`: known types get their label, any other input is echoed. */
  function TypeLabel(t: string): (r: string)
    ensures t == "vestuario" ==> r == "Vestuário"
    ensures t !in {"souvenir", "menu", "vestuario"} ==> r == t
  {
    LabelOr(TypeLabels, t)
  }
}
