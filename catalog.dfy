/** The static product catalog the storefront ships with, and its slug lookup. */
module StaticCatalog {
  import opened Wrappers
  import opened SlugLookup

  datatype StockStatus = InStock | LowStock

  /**
   * A catalog entry. Unlike the API's product, `price` is display text ("GHS 650.00");
   * imagery, ratings, highlights and specifications are not modelled.
   */
  datatype CatalogProduct = CatalogProduct(
    name: string,
    slug: string,
    description: string,
    price: string,
    badge: Option<string>,
    stock: StockStatus,
    category: string)

  const Products: seq<CatalogProduct> := [
    CatalogProduct("Pro BP Monitor", "pro-bp-monitor", "Digital Upper Arm Cuff", "GHS 650.00", None, InStock, "Blood Pressure"),
    CatalogProduct("Smart Temp", "smart-temp", "Instant Read Thermometer", "GHS 260.00", Some("Sale"), LowStock, "Thermometers"),
    CatalogProduct("Home Safety Kit", "home-safety-kit", "120-Piece First Aid Set", "GHS 450.00", None, InStock, "First Aid Kits"),
    CatalogProduct("Pulse Check", "pulse-check", "Fingertip Oximeter", "GHS 325.00", None, InStock, "Monitoring Devices"),
    CatalogProduct("Daily Vitamins", "daily-vitamins", "Immune Support 60ct", "GHS 120.00", None, InStock, "Wellness"),
    CatalogProduct("Yoga Mat Pro", "yoga-mat-pro", "Non-slip Exercise Mat", "GHS 380.00", None, InStock, "Fitness"),
    CatalogProduct("Power Dumbbells", "power-dumbbells", "Adjustable Strength Set", "GHS 720.00", None, InStock, "Fitness")
  ]

  function SlugOf(p: CatalogProduct): string {
    p.slug
  }

  /** `getProductBySlug`: the catalog entry with that slug, or none when there is none. */
  function GetProductBySlug(slug: string): (r: Option<CatalogProduct>)
    ensures r.None? <==> forall i :: 0 <= i < |Products| ==> Products[i].slug != slug
    ensures r.Some? ==> r.value in Products && r.value.slug == slug
  {
    FindBySlug(Products, SlugOf, slug)
  }

  /** No two catalog entries share a slug. */
  lemma SlugsDistinct()
    ensures DistinctKeys(Products, SlugOf)
  {
    forall i, j | 0 <= i < j < |Products| ensures SlugOf(Products[i]) != SlugOf(Products[j]) {
      var a, b := Products[i].slug, Products[j].slug;
      if |a| == |b| {
        assert a[0] != b[0];
      }
    }
  }

  /** Every entry's own slug leads back to that entry. */
  lemma EverySlugFindsItsProduct(i: nat)
    requires i < |Products|
    ensures GetProductBySlug(Products[i].slug) == Some(Products[i])
  {
    SlugsDistinct();
    FindOwnKey(Products, SlugOf, i);
  }

  /** A slug outside the catalog finds nothing. */
  lemma UnknownSlug()
    ensures GetProductBySlug("").None?
  {
  }
}
