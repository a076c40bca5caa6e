/**
 * The product list page (`Home`): loading the list, the search and filter
 * predicate, the status and type labels, and the delete confirmation
 * dialog's transitions.
 */
module Dashboard {
  import opened Wrappers
  import opened Strings
  import opened Lists
  import opened Selects

  /** A listed product. Prices and the creation time are only displayed. */
  datatype Product = Product(idsku: int, title: string, productType: string, status: string, image: Option<string>)

  /** The filter value that lets every status, or every type, through. */
  const All: string := "all"

  /**
   * Whether a product is listed: its lower-cased title contains the
   * lower-cased search term, and each filter is `"all"` or equal.
   */
  predicate Matches(p: Product, search: string, statusFilter: string, typeFilter: string) {
    && Contains(ToLower(p.title), ToLower(search))
    && (statusFilter == All || p.status == statusFilter)
    && (typeFilter == All || p.productType == typeFilter)
  }

  /** `filteredProducts`. */
  function Filtered(products: seq<Product>, search: string, statusFilter: string, typeFilter: string): (r: seq<Product>)
    ensures SubsequenceOf(r, products)
    ensures forall i :: 0 <= i < |r| ==> Matches(r[i], search, statusFilter, typeFilter)
    ensures forall i :: 0 <= i < |products| && Matches(products[i], search, statusFilter, typeFilter) ==> products[i] in r
    ensures forall i :: 0 <= i < |products| ==>
      multiset(r)[products[i]] == if Matches(products[i], search, statusFilter, typeFilter) then multiset(products)[products[i]] else 0
  {
    var keep := (p: Product) => Matches(p, search, statusFilter, typeFilter);
    FilterMultiplicity(products, keep);
    Filter(products, keep)
  }

  /** No search and both filters at `"all"` lists every product, in order. */
  lemma UnfilteredIsEverything(products: seq<Product>)
    ensures Filtered(products, "", All, All) == products
  {
    forall i | 0 <= i < |products|
      ensures Matches(products[i], "", All, All)
    {
      ContainsEmpty(ToLower(products[i].title));
    }
  }

  /** The search ignores the case of the term. */
  lemma SearchIgnoresCase(p: Product, search: string, statusFilter: string, typeFilter: string)
    ensures Matches(p, ToLower(search), statusFilter, typeFilter) <==> Matches(p, search, statusFilter, typeFilter)
  {
    ToLowerIdempotent(search);
  }

  /** Filtering the filtered list again changes nothing. */
  lemma FilteredIdempotent(products: seq<Product>, search: string, statusFilter: string, typeFilter: string)
    ensures Filtered(Filtered(products, search, statusFilter, typeFilter), search, statusFilter, typeFilter)
      == Filtered(products, search, statusFilter, typeFilter)
  {
    FilterIdempotent(products, p => Matches(p, search, statusFilter, typeFilter));
  }

  const StatusLabels: map<string, string> :=
    map["pending" := "Pendente", "released" := "Liberado", "inactive" := "Inativo"]

  /** `getStatusLabel`: known statuses get their label, any other is echoed. */
  function StatusLabel(status: string): (r: string)
    ensures status == "pending" ==> r == "Pendente"
    ensures status == "released" ==> r == "Liberado"
    ensures status == "inactive" ==> r == "Inativo"
    ensures status !in {"pending", "released", "inactive"} ==> r == status
  {
    LabelOr(StatusLabels, status)
  }

  /** The dialog that confirms a deletion. */
  datatype DeleteModal = DeleteModal(isOpen: bool, product: Option<Product>, isDeleting: bool)

  const Closed: DeleteModal := DeleteModal(false, None, false)

  datatype HomeState = HomeState(
    products: seq<Product>,
    loading: bool,
    error: Option<string>,
    modal: DeleteModal
  )

  const Initial: HomeState := HomeState([], true, None, Closed)

  const LoadError: string := "Erro ao carregar produtos"

  /** `fetchProducts`, with the response as an input; `loading` ends false either way. */
  function FetchProducts(s: HomeState, response: Response<seq<Product>>): (r: HomeState)
    ensures !r.loading && r.modal == s.modal
    ensures response.Ok? ==> r.products == response.data && r.error == s.error
    ensures response.Err? ==> r.products == s.products && r.error == Some(LoadError)
  {
    match response
    case Ok(list) => s.(products := list, loading := false)
    case Err(_) => s.(error := Some(LoadError), loading := false)
  }

  /** `handleDeleteProduct`: opens the dialog on that product. */
  function RequestDelete(s: HomeState, p: Product): (r: HomeState)
    ensures r.modal == DeleteModal(true, Some(p), false)
    ensures r.(modal := s.modal) == s
  {
    s.(modal := DeleteModal(true, Some(p), false))
  }

  /** The products left after deleting `sku`. */
  function WithoutSku(products: seq<Product>, sku: int): (r: seq<Product>)
    ensures SubsequenceOf(r, products)
    ensures forall i :: 0 <= i < |r| ==> r[i].idsku != sku
    ensures forall i :: 0 <= i < |products| && products[i].idsku != sku ==> products[i] in r
    ensures forall i :: 0 <= i < |products| ==>
      multiset(r)[products[i]] == if products[i].idsku != sku then multiset(products)[products[i]] else 0
  {
    var keep := (p: Product) => p.idsku != sku;
    FilterMultiplicity(products, keep);
    Filter(products, keep)
  }

  /**
   * `confirmDelete`, with the delete response as an input. Nothing happens
   * without a product; success removes every product with its sku and
   * closes the dialog; failure keeps the list and the open dialog.
   */
  function ConfirmDelete(s: HomeState, response: Response<()>): (r: HomeState)
    ensures s.modal.product.None? ==> r == s
    ensures s.modal.product.Some? && response.Ok? ==>
      r == s.(products := WithoutSku(s.products, s.modal.product.value.idsku), modal := Closed)
    ensures s.modal.product.Some? && response.Err? ==>
      r == s.(modal := s.modal.(isDeleting := false))
  {
    match s.modal.product
    case None => s
    case Some(p) =>
      match response
      case Ok(_) => s.(products := WithoutSku(s.products, p.idsku), modal := Closed)
      case Err(_) => s.(modal := s.modal.(isDeleting := false))
  }

  /** A confirmed deletion of a listed product shortens the list and leaves no product with its sku. */
  lemma ConfirmedDeleteRemoves(s: HomeState, p: Product)
    requires p in s.products
    ensures |ConfirmDelete(RequestDelete(s, p), Ok(())).products| < |s.products|
    ensures forall q :: q in ConfirmDelete(RequestDelete(s, p), Ok(())).products ==> q.idsku != p.idsku
  {
    var r := WithoutSku(s.products, p.idsku);
    SubsequenceMissingShorter(r, s.products, p);
  }

  /** `cancelDelete`: the dialog closes and forgets the product. */
  function CancelDelete(s: HomeState): (r: HomeState)
    ensures r.modal == Closed && r.(modal := s.modal) == s
  {
    s.(modal := Closed)
  }
}
