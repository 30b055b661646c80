/** The product record the API returns and the cart stores (`Product` in the types folder). */
module ProductTypes {
  import opened Wrappers

  /**
   * A product as the REST API describes it. `price` is an integer number of minor
   * currency units (pesewas); the storefront itself keeps a JavaScript number.
   */
  datatype Product = Product(
    id: string,
    name: string,
    slug: string,
    description: Option<string>,
    price: int,
    stockQty: int,
    images: seq<string>,
    isActive: bool,
    createdAt: string,
    updatedAt: string)
}
