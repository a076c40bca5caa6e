/**
 * The product modal's taxonomy: product type, then category (with an id),
 * then classification (with an id). Lookups project `{id, label}` entries
 * to `{value: id, label}` options and degrade to `[]` for unknown keys.
 */
module ModalOptions {
  import opened Wrappers
  import opened Selects

  /** A table entry `{id, value, label}`; `text` is the `label`. */
  datatype Entry = Entry(id: string, value: string, text: string)

  const ProductTypes: seq<SelectOption> := [
    SelectOption("souvenir", "Souvenir"),
    SelectOption("menu", "Cardápio"),
    SelectOption("clothing", "Vestuário")
  ]

  const ProductCategories: seq<Entry> := [
    Entry("1", "gastronomy", "Gastronomia"),
    Entry("2", "clothing", "Vestuário"),
    Entry("3", "souvenir", "Souvenir")
  ]

  const CategoryClassifications: map<string, seq<Entry>> := map[
    "gastronomy" := [Entry("1", "vegan", "Vegano"), Entry("2", "italian", "Italiana"), Entry("3", "mexican", "Mexicana")],
    "clothing" := [Entry("4", "casual", "Casual"), Entry("5", "formal", "Formal"), Entry("6", "sport", "Esportivo")],
    "souvenir" := [
      Entry("7", "decor", "Decoração"), Entry("8", "utensils", "Utensílios"),
      Entry("9", "accessories", "Acessórios"), Entry("10", "collectibles", "Colecionáveis"),
      Entry("11", "gifts", "Presentes")
    ]
  ]

  /** The index of the first entry whose picked field is `key`, or `|entries|`. */
  function FindIndex(entries: seq<Entry>, pick: Entry -> string, key: string): (k: nat)
    ensures k <= |entries|
    ensures forall j :: 0 <= j < k ==> pick(entries[j]) != key
    ensures k < |entries| ==> pick(entries[k]) == key
  {
    if |entries| == 0 || pick(entries[0]) == key then 0
    else 1 + FindIndex(entries[1..], pick, key)
  }

  /** `entries.find(e => pick(e) === key)`: the first entry whose picked field is `key`. */
  function FindBy(entries: seq<Entry>, pick: Entry -> string, key: string): (r: Option<Entry>)
    ensures r.None? <==> forall i :: 0 <= i < |entries| ==> pick(entries[i]) != key
    ensures r.Some? ==> r.value in entries && pick(r.value) == key
    ensures forall k ::
      (0 <= k < |entries| && pick(entries[k]) == key && forall j :: 0 <= j < k ==> pick(entries[j]) != key)
      ==> r == Some(entries[k])
  {
    var k := FindIndex(entries, pick, key);
    if k < |entries| then Some(entries[k]) else None
  }

  function ValueOf(e: Entry): string { e.value }
  function IdOf(e: Entry): string { e.id }

  /** `productCategories.find(cat => cat.value === v)!`. */
  function CategoryNamed(v: string): Entry
    requires FindBy(ProductCategories, ValueOf, v).Some?
  {
    FindBy(ProductCategories, ValueOf, v).value
  }

  const CategoriesByProductType: map<string, seq<Entry>> := map[
    "souvenir" := [CategoryNamed("souvenir")],
    "menu" := [CategoryNamed("gastronomy")],
    "clothing" := [CategoryNamed("clothing")]
  ]

  /** `({id, label}) => ({value: id, label})`. */
  function Project(entries: seq<Entry>): (r: seq<SelectOption>)
    ensures |r| == |entries|
    ensures forall i :: 0 <= i < |entries| ==>
      r[i].value == entries[i].id && r[i].text == entries[i].text
  {
    seq(|entries|, i requires 0 <= i < |entries| => SelectOption(entries[i].id, entries[i].text))
  }

  /** The `!` lookups of the table resolve to the three categories in order. */
  lemma CategoriesByProductTypeResolved()
    ensures CategoriesByProductType.Keys == {"souvenir", "menu", "clothing"}
    ensures CategoriesByProductType["souvenir"] == [ProductCategories[2]]
    ensures CategoriesByProductType["menu"] == [ProductCategories[0]]
    ensures CategoriesByProductType["clothing"] == [ProductCategories[1]]
  {
    assert FindIndex(ProductCategories, ValueOf, "souvenir") == 2;
    assert FindIndex(ProductCategories, ValueOf, "gastronomy") == 0;
    assert FindIndex(ProductCategories, ValueOf, "clothing") == 1;
  }

  /** `getCategoryOptionsByProductType`. */
  function CategoryOptionsFor(productType: string): (r: seq<SelectOption>)
    ensures productType !in {"souvenir", "menu", "clothing"} ==> r == []
    ensures productType in {"souvenir", "menu", "clothing"} ==> |r| == 1
  {
    CategoriesByProductTypeResolved();
    Project(if productType in CategoriesByProductType then CategoriesByProductType[productType] else [])
  }

  /** `getClassificationOptionsByCategory`; the empty category value included. */
  function ClassificationOptionsFor(category: string): (r: seq<SelectOption>)
    ensures category !in {"gastronomy", "clothing", "souvenir"} ==> r == []
    ensures category in CategoryClassifications ==>
      |r| == |CategoryClassifications[category]| > 0
  {
    Project(if category in CategoryClassifications then CategoryClassifications[category] else [])
  }

  /** Each product type offers exactly the one category the table pairs it with. */
  lemma CategoryOptionsOfKnownTypes()
    ensures CategoryOptionsFor("menu") == [SelectOption("1", "Gastronomia")]
    ensures CategoryOptionsFor("clothing") == [SelectOption("2", "Vestuário")]
    ensures CategoryOptionsFor("souvenir") == [SelectOption("3", "Souvenir")]
    ensures CategoryOptionsFor("") == []
  {
    CategoriesByProductTypeResolved();
    assert CategoryOptionsFor("menu") == Project([ProductCategories[0]]);
    assert CategoryOptionsFor("clothing") == Project([ProductCategories[1]]);
    assert CategoryOptionsFor("souvenir") == Project([ProductCategories[2]]);
  }

  /** Known categories give their classification ids in table order. */
  lemma ClassificationIdsOfKnownCategories()
    ensures Values(ClassificationOptionsFor("gastronomy")) == ["1", "2", "3"]
    ensures Values(ClassificationOptionsFor("clothing")) == ["4", "5", "6"]
    ensures Values(ClassificationOptionsFor("souvenir")) == ["7", "8", "9", "10", "11"]
    ensures ClassificationOptionsFor("") == []
  {
  }

  /** Every product type of the first select is a key of the category table. */
  lemma ProductTypesCovered(i: int)
    requires 0 <= i < |ProductTypes|
    ensures ProductTypes[i].value in CategoriesByProductType
    ensures CategoryOptionsFor(ProductTypes[i].value) != []
  {
  }

  /** Classification ids are unique across all categories. */
  lemma ClassificationIdsUnique(c1: string, i: int, c2: string, j: int)
    requires c1 in CategoryClassifications && c2 in CategoryClassifications
    requires 0 <= i < |CategoryClassifications[c1]| && 0 <= j < |CategoryClassifications[c2]|
    requires CategoryClassifications[c1][i].id == CategoryClassifications[c2][j].id
    ensures c1 == c2 && i == j
  {
  }
}
