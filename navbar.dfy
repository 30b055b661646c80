/** The header: which navigation link is highlighted for the current path, and the cart badge. */
module Navbar {
  import opened Wrappers
  import opened JsStrings
  import opened Api
  import opened Cart

  /** `usePathname() || "/"` */
  function CurrentPath(pathname: Option<string>): (r: string)
    ensures Given(pathname) ==> r == pathname.value
    ensures !Given(pathname) ==> r == "/"
  {
    if Given(pathname) then pathname.value else "/"
  }

  /** How an item's `match` compares the path with its href. */
  datatype Match = Exactly | Prefix

  datatype NavItem = NavItem(href: string, caption: string, rule: Match)

  /** `navItems`: Home matches only the root, the others every path under their href. */
  const NavItems: seq<NavItem> := [
    NavItem("/", "Home", Exactly),
    NavItem("/blog", "Blog", Prefix),
    NavItem("/products", "Shop", Prefix),
    NavItem("/categories", "Categories", Prefix)
  ]

  /** `item.match(path)` */
  function IsActive(item: NavItem, path: string): (r: bool)
    ensures r ==> StartsWith(path, item.href)
  {
    match item.rule
    case Exactly => path == item.href
    case Prefix => StartsWith(path, item.href)
  }

  /** Home is highlighted exactly on the root path. */
  lemma HomeOnlyAtRoot(path: string)
    ensures IsActive(NavItems[0], path) <==> path == "/"
  {
  }

  /** The other links are highlighted exactly under their own prefix. */
  lemma SectionsByPrefix(path: string)
    ensures IsActive(NavItems[1], path) <==> StartsWith(path, "/blog")
    ensures IsActive(NavItems[2], path) <==> StartsWith(path, "/products")
    ensures IsActive(NavItems[3], path) <==> StartsWith(path, "/categories")
  {
  }

  /** No path highlights two links, and each link's own href highlights it. */
  lemma AtMostOneActive(path: string)
    ensures forall i, j :: 0 <= i < j < |NavItems| ==> !(IsActive(NavItems[i], path) && IsActive(NavItems[j], path))
    ensures forall i :: 0 <= i < |NavItems| ==> IsActive(NavItems[i], NavItems[i].href)
  {
    forall i, j | 0 <= i < j < |NavItems|
      ensures !(IsActive(NavItems[i], path) && IsActive(NavItems[j], path))
    {
      if i == 0 {
        assert |NavItems[j].href| > 1;
      } else {
        assert NavItems[i].href[1] != NavItems[j].href[1];
      }
    }
  }

  /** Without a path the header treats the page as the home page. */
  lemma MissingPathIsHome()
    ensures IsActive(NavItems[0], CurrentPath(None))
  {
  }

  /** The cart badge shows while the cart's total quantity is positive. */
  predicate ShowsBadge(totalQty: int) {
    totalQty > 0
  }

  /** For a cart of positive quantities the badge shows exactly when the cart has lines. */
  lemma BadgeIffCartNonEmpty(items: seq<CartItem>)
    requires PositiveQuantities(items)
    ensures ShowsBadge(TotalQty(items)) <==> items != []
  {
    TotalQtyPositiveIffNonEmpty(items);
  }
}
