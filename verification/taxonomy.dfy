/**
 * The register page's three-level taxonomy: product type, then
 * classification, then category, held in two static tables with lookups
 * that degrade to an empty list for unknown keys.
 */
module Taxonomy {
  import opened Selects

  function Opt(value: string, text: string): SelectOption { SelectOption(value, text) }

  const ProductTypes: seq<SelectOption> :=
    [Opt("souvenir", "Souvenir"), Opt("menu", "Menu"), Opt("vestuario", "Vestuário")]

  const ClassificationsByType: map<string, seq<SelectOption>> := map[
    "souvenir" := [Opt("artesanato", "Artesanato"), Opt("colecionavel", "Colecionável"), Opt("local", "Local")],
    "menu" := [Opt("entrada", "Entrada"), Opt("prato_principal", "Prato Principal"), Opt("bebida", "Bebida")],
    "vestuario" := [Opt("camiseta", "Camiseta"), Opt("bone", "Boné"), Opt("moletom", "Moletom")]
  ]

  const CategoriesByClassification: map<string, seq<SelectOption>> := map[
    "artesanato" := [Opt("madeira", "Madeira"), Opt("ceramica", "Cerâmica"), Opt("tecido", "Tecido")],
    "colecionavel" := [Opt("moeda", "Moeda"), Opt("selo", "Selo"), Opt("miniatura", "Miniatura")],
    "local" := [Opt("lembranca", "Lembrança"), Opt("cartao_postal", "Cartão Postal"), Opt("imas", "Ímãs")],
    "entrada" := [Opt("salada", "Salada"), Opt("sopa", "Sopa"), Opt("petisco", "Petisco")],
    "prato_principal" := [Opt("carne", "Carne"), Opt("peixe", "Peixe"), Opt("vegetariano", "Vegetariano")],
    "bebida" := [Opt("suco", "Suco"), Opt("refrigerante", "Refrigerante"), Opt("alcoolica", "Alcoólica")],
    "camiseta" := [Opt("manga_curta", "Manga Curta"), Opt("manga_longa", "Manga Longa"), Opt("regata", "Regata")],
    "bone" := [Opt("aba_reta", "Aba Reta"), Opt("aba_curva", "Aba Curva"), Opt("trucker", "Trucker")],
    "moletom" := [Opt("com_capuz", "Com Capuz"), Opt("sem_capuz", "Sem Capuz"), Opt("ziper", "Com Zíper")]
  ]

  const KnownTypes: set<string> := {"souvenir", "menu", "vestuario"}

  const KnownClassifications: set<string> := {
    "artesanato", "colecionavel", "local", "entrada", "prato_principal",
    "bebida", "camiseta", "bone", "moletom"
  }

  /** `getClassificationsByType`: never fails, empty exactly for unknown types. */
  function ClassificationsFor(t: string): (r: seq<SelectOption>)
    ensures t in KnownTypes <==> r != []
    ensures t in KnownTypes ==> |r| == 3
    ensures forall i :: 0 <= i < |r| ==> r[i].value in KnownClassifications
  {
    if t in ClassificationsByType then ClassificationsByType[t] else []
  }

  /** `getCategoriesByClassification`: empty exactly for unknown classifications. */
  function CategoriesFor(c: string): (r: seq<SelectOption>)
    ensures c in KnownClassifications <==> r != []
    ensures c in KnownClassifications ==> |r| == 3
  {
    if c in CategoriesByClassification then CategoriesByClassification[c] else []
  }

  /** The listed classifications, in table order, for each known type. */
  lemma ClassificationsOfKnownTypes()
    ensures Values(ClassificationsFor("souvenir")) == ["artesanato", "colecionavel", "local"]
    ensures Values(ClassificationsFor("menu")) == ["entrada", "prato_principal", "bebida"]
    ensures Values(ClassificationsFor("vestuario")) == ["camiseta", "bone", "moletom"]
    ensures ClassificationsFor("") == []
  {
  }

  /** The listed categories, in table order, for each of the nine classifications. */
  lemma CategoriesOfKnownClassifications()
    ensures Values(CategoriesFor("artesanato")) == ["madeira", "ceramica", "tecido"]
    ensures Values(CategoriesFor("colecionavel")) == ["moeda", "selo", "miniatura"]
    ensures Values(CategoriesFor("local")) == ["lembranca", "cartao_postal", "imas"]
    ensures Values(CategoriesFor("entrada")) == ["salada", "sopa", "petisco"]
    ensures Values(CategoriesFor("prato_principal")) == ["carne", "peixe", "vegetariano"]
    ensures Values(CategoriesFor("bebida")) == ["suco", "refrigerante", "alcoolica"]
    ensures Values(CategoriesFor("camiseta")) == ["manga_curta", "manga_longa", "regata"]
    ensures Values(CategoriesFor("bone")) == ["aba_reta", "aba_curva", "trucker"]
    ensures Values(CategoriesFor("moletom")) == ["com_capuz", "sem_capuz", "ziper"]
  {
  }

  /**
   * Closure of the tree: every type offered by the first select has
   * classifications, and every classification offered under a type has a
   * non-empty category list.
   */
  lemma TaxonomyClosed(t: string, i: int)
    requires t in Values(ProductTypes)
    requires 0 <= i < |ClassificationsFor(t)|
    ensures |ClassificationsFor(t)| == 3
    ensures |CategoriesFor(ClassificationsFor(t)[i].value)| == 3
  {
    assert Values(ProductTypes) == ["souvenir", "menu", "vestuario"];
  }

  /**
   * Classification values never repeat, within one type or across types, so
   * the classification alone determines the category list.
   */
  lemma ClassificationsDistinct(t1: string, i: int, t2: string, j: int)
    requires 0 <= i < |ClassificationsFor(t1)| && 0 <= j < |ClassificationsFor(t2)|
    requires ClassificationsFor(t1)[i].value == ClassificationsFor(t2)[j].value
    ensures t1 == t2 && i == j
  {
  }

  /** Every classification value, type by type, in table order. */
  function AllClassifications(): (r: seq<string>)
    ensures |r| == 9
  {
    Values(ClassificationsFor("souvenir")) + Values(ClassificationsFor("menu")) + Values(ClassificationsFor("vestuario"))
  }

  /** The category values under each of `classifications`, in order. */
  function CategoriesUnder(classifications: seq<string>): (r: seq<string>)
    ensures forall k, i :: 0 <= k < |classifications| && 0 <= i < |CategoriesFor(classifications[k])| ==>
      CategoriesFor(classifications[k])[i].value in r
    ensures |r| <= 3 * |classifications|
  {
    if |classifications| == 0 then []
    else
      var rest := CategoriesUnder(classifications[1..]);
      assert forall k :: 1 <= k < |classifications| ==> classifications[k] == classifications[1..][k - 1];
      Values(CategoriesFor(classifications[0])) + rest
  }

  /** Every category value of the table. */
  function AllCategories(): (r: seq<string>)
    ensures |r| <= 27
  {
    CategoriesUnder(AllClassifications())
  }

  /** Every classification a type offers, and every category it leads to, is listed. */
  lemma OfferedValuesListed(t: string, i: int, j: int)
    requires 0 <= i < |ClassificationsFor(t)|
    requires 0 <= j < |CategoriesFor(ClassificationsFor(t)[i].value)|
    ensures ClassificationsFor(t)[i].value in AllClassifications()
    ensures CategoriesFor(ClassificationsFor(t)[i].value)[j].value in AllCategories()
  {
    var all := AllClassifications();
    var c := ClassificationsFor(t)[i].value;
    var k := if t == "souvenir" then i else if t == "menu" then 3 + i else 6 + i;
    assert all[k] == c;
  }
}
