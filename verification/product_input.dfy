/**
 * The product modal's draft, `ProductFormInput`: every field as the form
 * holds it, before schema parsing. `null` is `None`.
 */
module ProductInput {
  import opened Wrappers

  datatype ProductFormInput = ProductFormInput(
    title: string,
    productType: string,
    idca: string,
    idcl: string,
    idPartner: string,
    idPrinter: Option<string>,
    image: Option<string>,
    measure: string,
    quantity: Option<string>,
    price: string,
    offer: string,
    description: Option<string>,
    remove: Option<string>,
    includes: Option<string>, // the `include` field
    datasheet: Option<string>,
    status: string
  )
}
