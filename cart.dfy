/**
 * The cart store: an ordered list of (product, quantity) lines keyed by product slug,
 * its operations, the derived totals and the copy mirrored in browser storage.
 */
module Cart {
  import opened Wrappers
  import opened ProductTypes

  /** The storage key the list is mirrored under. */
  const StorageKey := "menshealth_cart"

  datatype CartItem = CartItem(product: Product, quantity: int)

  /**
   * What browser storage holds under `StorageKey`, as the loader sees it after
   * `JSON.parse`: nothing (a missing or empty entry), text that does not parse,
   * a JSON value that is not an array, or a saved list of lines.
   */
  datatype StoredCart = Absent | Unparseable | NotAnArray | Saved(items: seq<CartItem>)

  predicate HasSlug(items: seq<CartItem>, slug: string) {
    exists i :: 0 <= i < |items| && items[i].product.slug == slug
  }

  /** At most one line per product slug. */
  predicate DistinctSlugs(items: seq<CartItem>) {
    forall i, j :: 0 <= i < j < |items| ==> items[i].product.slug != items[j].product.slug
  }

  predicate PositiveQuantities(items: seq<CartItem>) {
    forall i :: 0 <= i < |items| ==> items[i].quantity >= 1
  }

  /** The cart invariant: slugs pairwise distinct and every quantity at least 1. */
  predicate WellFormed(items: seq<CartItem>) {
    DistinctSlugs(items) && PositiveQuantities(items)
  }

  predicate NonNegativeLines(items: seq<CartItem>) {
    forall i :: 0 <= i < |items| ==> items[i].product.price >= 0 && items[i].quantity >= 0
  }

  /** `totalQty`: the left fold `sum + item.quantity` from 0. */
  function TotalQty(items: seq<CartItem>): (r: int)
    ensures PositiveQuantities(items) ==> r >= |items|
  {
    if items == [] then 0
    else TotalQty(items[..|items| - 1]) + items[|items| - 1].quantity
  }

  /** `subtotal`: the left fold `sum + item.product.price * item.quantity` from 0. */
  function Subtotal(items: seq<CartItem>): (r: int)
    ensures NonNegativeLines(items) ==> r >= 0
  {
    if items == [] then 0
    else Subtotal(items[..|items| - 1]) + items[|items| - 1].product.price * items[|items| - 1].quantity
  }

  /** `current.find(item => item.product.slug === slug)`: the first line with the slug. */
  function Find(items: seq<CartItem>, slug: string): (r: Option<CartItem>)
    ensures r.Some? <==> HasSlug(items, slug)
    ensures r.Some? ==> exists i :: 0 <= i < |items| && items[i] == r.value && r.value.product.slug == slug
                                    && forall j :: 0 <= j < i ==> items[j].product.slug != slug
  {
    if items == [] then None
    else if items[0].product.slug == slug then
      Some(items[0])
    else
      var r := Find(items[1..], slug);
      assert forall i :: 0 <= i < |items| - 1 ==> items[1..][i] == items[i + 1];
      assert HasSlug(items, slug) ==> HasSlug(items[1..], slug);
      r
  }

  /** `current.map(...)` in `addItem`: every line with the slug gains `quantity`. */
  function IncreaseLines(items: seq<CartItem>, slug: string, quantity: int): (r: seq<CartItem>)
    ensures |r| == |items|
    ensures forall i :: 0 <= i < |r| ==> r[i].product == items[i].product
    ensures !HasSlug(items, slug) ==> r == items
  {
    seq(|items|, i requires 0 <= i < |items| =>
      if items[i].product.slug == slug then items[i].(quantity := items[i].quantity + quantity) else items[i])
  }

  /** `current.map(...)` in `updateQty`: every line with the slug gets `quantity`. */
  function SetLines(items: seq<CartItem>, slug: string, quantity: int): (r: seq<CartItem>)
    ensures |r| == |items|
    ensures forall i :: 0 <= i < |r| ==> r[i].product == items[i].product
    ensures !HasSlug(items, slug) ==> r == items
  {
    seq(|items|, i requires 0 <= i < |items| =>
      if items[i].product.slug == slug then items[i].(quantity := quantity) else items[i])
  }

  /** The updater `addItem` passes to `setItems` (reached only with a positive quantity). */
  function WithAdded(current: seq<CartItem>, product: Product, quantity: int): (r: seq<CartItem>)
    ensures HasSlug(r, product.slug)
    ensures |r| == |current| + (if HasSlug(current, product.slug) then 0 else 1)
    ensures !HasSlug(current, product.slug) ==> current <= r
  {
    if Find(current, product.slug).Some? then
      var r := IncreaseLines(current, product.slug, quantity);
      var i :| 0 <= i < |current| && current[i].product.slug == product.slug;
      assert r[i].product.slug == product.slug;
      r
    else
      var r := current + [CartItem(product, quantity)];
      assert r[|current|].product.slug == product.slug;
      r
  }

  /** `current.filter(item => item.product.slug !== slug)` */
  function Removed(current: seq<CartItem>, slug: string): (r: seq<CartItem>)
    ensures |r| <= |current|
    ensures HasSlug(current, slug) ==> |r| < |current|
  {
    if current == [] then []
    else (if current[0].product.slug == slug then [] else [current[0]]) + Removed(current[1..], slug)
  }

  // ---------------------------------------------------------------------------------
  // Sums

  lemma {:induction false} TotalsConcat(a: seq<CartItem>, b: seq<CartItem>)
    ensures TotalQty(a + b) == TotalQty(a) + TotalQty(b)
    ensures Subtotal(a + b) == Subtotal(a) + Subtotal(b)
    decreases |b|
  {
    if b != [] {
      var b' := b[..|b| - 1];
      assert (a + b)[..|a + b| - 1] == a + b';
      TotalsConcat(a, b');
    } else {
      assert a + b == a;
    }
  }

  lemma {:induction false} TotalsSingle(x: CartItem)
    ensures TotalQty([x]) == x.quantity
    ensures Subtotal([x]) == x.product.price * x.quantity
  {
    assert [x][..0] == [];
  }

  /** Replacing one line changes the sums by exactly that line's difference. */
  lemma {:induction false} TotalsReplace(s: seq<CartItem>, i: nat, x: CartItem)
    requires i < |s|
    ensures TotalQty(s[i := x]) == TotalQty(s) - s[i].quantity + x.quantity
    ensures Subtotal(s[i := x]) == Subtotal(s) - s[i].product.price * s[i].quantity + x.product.price * x.quantity
  {
    var a, b := s[..i], s[i + 1..];
    assert s == (a + [s[i]]) + b;
    assert s[i := x] == (a + [x]) + b;
    TotalsConcat(a + [s[i]], b);
    TotalsConcat(a, [s[i]]);
    TotalsConcat(a + [x], b);
    TotalsConcat(a, [x]);
    TotalsSingle(s[i]);
    TotalsSingle(x);
  }

  /** Dropping one line lowers the sums by exactly that line. */
  lemma {:induction false} TotalsDrop(s: seq<CartItem>, i: nat)
    requires i < |s|
    ensures TotalQty(s[..i] + s[i + 1..]) == TotalQty(s) - s[i].quantity
    ensures Subtotal(s[..i] + s[i + 1..]) == Subtotal(s) - s[i].product.price * s[i].quantity
  {
    var a, b := s[..i], s[i + 1..];
    assert s == (a + [s[i]]) + b;
    TotalsConcat(a + [s[i]], b);
    TotalsConcat(a, [s[i]]);
    TotalsConcat(a, b);
    TotalsSingle(s[i]);
  }

  /** For a well-formed cart, `totalQty > 0` exactly when the cart has lines. */
  lemma {:induction false} TotalQtyPositiveIffNonEmpty(items: seq<CartItem>)
    requires PositiveQuantities(items)
    ensures TotalQty(items) > 0 <==> items != []
  {
  }

  /** With positive prices, a line-holding well-formed cart has a positive subtotal. */
  lemma {:induction false} SubtotalPositive(items: seq<CartItem>)
    requires PositiveQuantities(items)
    requires forall i :: 0 <= i < |items| ==> items[i].product.price > 0
    ensures Subtotal(items) > 0 <==> items != []
  {
    if items != [] {
      var init := items[..|items| - 1];
      SubtotalPositive(init);
      var last := items[|items| - 1];
      assert last.product.price * last.quantity > 0;
    }
  }

  // ---------------------------------------------------------------------------------
  // addItem

  /** How the updater of `addItem` changes any list, well-formed or not. */
  lemma {:induction false} WithAddedEffect(items: seq<CartItem>, product: Product, quantity: int)
    ensures var r := WithAdded(items, product, quantity);
      && (!HasSlug(items, product.slug) ==> r == items + [CartItem(product, quantity)])
      && (HasSlug(items, product.slug) ==>
            |r| == |items|
            && forall j :: 0 <= j < |items| ==>
                 r[j].product == items[j].product
                 && r[j].quantity == items[j].quantity + (if items[j].product.slug == product.slug then quantity else 0))
  {
  }

  /** On a well-formed cart that already holds the slug, only that line changes. */
  lemma {:induction false} WithAddedExisting(items: seq<CartItem>, product: Product, quantity: int, i: nat)
    requires DistinctSlugs(items)
    requires i < |items| && items[i].product.slug == product.slug
    ensures WithAdded(items, product, quantity) == items[i := items[i].(quantity := items[i].quantity + quantity)]
  {
    assert HasSlug(items, product.slug);
    var r := WithAdded(items, product, quantity);
    var e := items[i := items[i].(quantity := items[i].quantity + quantity)];
    assert |r| == |e|;
    forall j | 0 <= j < |r| ensures r[j] == e[j] {
      if j != i {
        assert items[j].product.slug != product.slug;
      }
    }
  }

  /** The quantity added to the line for `product`'s slug, at that line's stored price. */
  function LinePrice(items: seq<CartItem>, product: Product): int {
    match Find(items, product.slug)
    case Some(line) => line.product.price
    case None => product.price
  }

  /** In a cart with distinct slugs, `find` returns the one line that has the slug. */
  lemma FindDistinct(items: seq<CartItem>, slug: string, i: nat)
    requires DistinctSlugs(items)
    requires i < |items| && items[i].product.slug == slug
    ensures Find(items, slug) == Some(items[i])
  {
    assert HasSlug(items, slug);
  }

  /** Adding `quantity` to line `i` raises the sums by that quantity at that line's price. */
  lemma {:induction false} IncreaseLineTotals(items: seq<CartItem>, i: nat, quantity: int)
    requires i < |items|
    ensures var r := items[i := items[i].(quantity := items[i].quantity + quantity)];
      && TotalQty(r) == TotalQty(items) + quantity
      && Subtotal(r) == Subtotal(items) + items[i].product.price * quantity
  {
    var line := items[i].(quantity := items[i].quantity + quantity);
    TotalsReplace(items, i, line);
    var price := items[i].product.price;
    assert price * (items[i].quantity + quantity) == price * items[i].quantity + price * quantity;
    var r := items[i := line];
    var before, after := Subtotal(items), Subtotal(r);
    assert after == before - price * items[i].quantity + price * line.quantity;
  }

  lemma {:induction false} AddExistingKeepsInvariant(items: seq<CartItem>, product: Product, quantity: int, i: nat)
    requires WellFormed(items) && quantity > 0
    requires i < |items| && items[i].product.slug == product.slug
    ensures var r := WithAdded(items, product, quantity);
      && WellFormed(r)
      && TotalQty(r) == TotalQty(items) + quantity
      && Subtotal(r) == Subtotal(items) + LinePrice(items, product) * quantity
  {
    WithAddedExisting(items, product, quantity, i);
    FindDistinct(items, product.slug, i);
    IncreaseLineTotals(items, i, quantity);
    var r := items[i := items[i].(quantity := items[i].quantity + quantity)];
    assert forall j :: 0 <= j < |r| ==> r[j].product == items[j].product;
    assert WellFormed(r);
  }

  lemma {:induction false} AddNewKeepsInvariant(items: seq<CartItem>, product: Product, quantity: int)
    requires WellFormed(items) && quantity > 0
    requires !HasSlug(items, product.slug)
    ensures var r := WithAdded(items, product, quantity);
      && WellFormed(r)
      && TotalQty(r) == TotalQty(items) + quantity
      && Subtotal(r) == Subtotal(items) + LinePrice(items, product) * quantity
  {
    var line := CartItem(product, quantity);
    TotalsConcat(items, [line]);
    TotalsSingle(line);
    var r := items + [line];
    assert forall j :: 0 <= j < |items| ==> r[j] == items[j];
  }

  /** A positive `addItem` keeps the invariant and raises the sums by exactly that quantity. */
  lemma AddItemKeepsInvariant(items: seq<CartItem>, product: Product, quantity: int)
    requires WellFormed(items) && quantity > 0
    ensures var r := WithAdded(items, product, quantity);
      && WellFormed(r)
      && TotalQty(r) == TotalQty(items) + quantity
      && Subtotal(r) == Subtotal(items) + LinePrice(items, product) * quantity
  {
    if HasSlug(items, product.slug) {
      var i :| 0 <= i < |items| && items[i].product.slug == product.slug;
      AddExistingKeepsInvariant(items, product, quantity, i);
    } else {
      AddNewKeepsInvariant(items, product, quantity);
    }
  }

  // ---------------------------------------------------------------------------------
  // removeItem

  /** `removeItem` keeps exactly the lines with other slugs. */
  lemma {:induction false} RemovedMembers(items: seq<CartItem>, slug: string)
    ensures forall x :: x in Removed(items, slug) <==> x in items && x.product.slug != slug
  {
    if items != [] {
      RemovedMembers(items[1..], slug);
      assert items == [items[0]] + items[1..];
    }
  }

  /** Removing a slug that is not present changes nothing. */
  lemma {:induction false} RemovedAbsent(items: seq<CartItem>, slug: string)
    requires !HasSlug(items, slug)
    ensures Removed(items, slug) == items
  {
    if items != [] {
      assert forall i :: 0 <= i < |items| - 1 ==> items[1..][i] == items[i + 1];
      RemovedAbsent(items[1..], slug);
    }
  }

  /** A second `removeItem` of the same slug is a no-op. */
  lemma {:induction false} RemovedIdempotent(items: seq<CartItem>, slug: string)
    ensures Removed(Removed(items, slug), slug) == Removed(items, slug)
  {
    RemovedMembers(items, slug);
    RemovedAbsent(Removed(items, slug), slug);
  }

  /** In a well-formed cart, removing the slug of line `i` drops that line and keeps the order. */
  lemma {:induction false} RemovedAt(items: seq<CartItem>, slug: string, i: nat)
    requires DistinctSlugs(items)
    requires i < |items| && items[i].product.slug == slug
    ensures Removed(items, slug) == items[..i] + items[i + 1..]
  {
    var t := items[1..];
    assert forall k :: 0 <= k < |t| ==> t[k] == items[k + 1];
    if i == 0 {
      assert !HasSlug(t, slug);
      RemovedAbsent(t, slug);
    } else {
      RemovedAt(t, slug, i - 1);
      assert items[..i] == [items[0]] + t[..i - 1];
      assert items[i + 1..] == t[i..];
    }
  }

  /** Removing keeps the invariant. */
  lemma {:induction false} RemovedKeepsInvariant(items: seq<CartItem>, slug: string)
    requires WellFormed(items)
    ensures WellFormed(Removed(items, slug))
  {
    if items != [] {
      var t := items[1..];
      assert forall k :: 0 <= k < |t| ==> t[k] == items[k + 1];
      RemovedKeepsInvariant(t, slug);
      RemovedMembers(t, slug);
      var rt := Removed(t, slug);
      if items[0].product.slug != slug {
        forall x | x in rt ensures x.product.slug != items[0].product.slug {
          var k :| 0 <= k < |t| && t[k] == x;
          assert items[k + 1] == x;
        }
        ConsWellFormed(items[0], rt);
      }
    }
  }

  /** A line whose slug no other line has can go in front of a well-formed cart. */
  lemma ConsWellFormed(h: CartItem, rest: seq<CartItem>)
    requires WellFormed(rest) && h.quantity >= 1
    requires forall x :: x in rest ==> x.product.slug != h.product.slug
    ensures WellFormed([h] + rest)
  {
    var r := [h] + rest;
    forall j | 1 <= j < |r| ensures r[j] == rest[j - 1] {
    }
  }

  /** Removing a present slug lowers the sums by that line. */
  lemma {:induction false} RemovedTotals(items: seq<CartItem>, slug: string, i: nat)
    requires DistinctSlugs(items)
    requires i < |items| && items[i].product.slug == slug
    ensures TotalQty(Removed(items, slug)) == TotalQty(items) - items[i].quantity
    ensures Subtotal(Removed(items, slug)) == Subtotal(items) - items[i].product.price * items[i].quantity
  {
    RemovedAt(items, slug, i);
    TotalsDrop(items, i);
  }

  // ---------------------------------------------------------------------------------
  // updateQty

  /** On a well-formed cart, a positive `updateQty` sets exactly line `i`. */
  lemma {:induction false} SetLinesAt(items: seq<CartItem>, slug: string, quantity: int, i: nat)
    requires DistinctSlugs(items)
    requires i < |items| && items[i].product.slug == slug
    ensures SetLines(items, slug, quantity) == items[i := items[i].(quantity := quantity)]
  {
    var r := SetLines(items, slug, quantity);
    var e := items[i := items[i].(quantity := quantity)];
    forall j | 0 <= j < |r| ensures r[j] == e[j] {
      if j != i {
        assert items[j].product.slug != slug;
      }
    }
  }

  /** `updateQty` on an absent slug changes nothing. */
  lemma {:induction false} SetLinesAbsent(items: seq<CartItem>, slug: string, quantity: int)
    requires !HasSlug(items, slug)
    ensures SetLines(items, slug, quantity) == items
  {
    var r := SetLines(items, slug, quantity);
    forall j | 0 <= j < |r| ensures r[j] == items[j] {
      assert items[j].product.slug != slug;
    }
  }

  /** A positive `updateQty` keeps the invariant and changes the sums by that line's difference. */
  lemma {:induction false} SetLinesKeepsInvariant(items: seq<CartItem>, slug: string, quantity: int)
    requires WellFormed(items) && quantity > 0
    ensures WellFormed(SetLines(items, slug, quantity))
    ensures forall i :: 0 <= i < |items| && items[i].product.slug == slug ==>
      TotalQty(SetLines(items, slug, quantity)) == TotalQty(items) - items[i].quantity + quantity
  {
    var r := SetLines(items, slug, quantity);
    assert forall j :: 0 <= j < |r| ==> r[j].product == items[j].product;
    forall i | 0 <= i < |items| && items[i].product.slug == slug
      ensures TotalQty(r) == TotalQty(items) - items[i].quantity + quantity
    {
      SetLinesAt(items, slug, quantity, i);
      TotalsReplace(items, i, items[i].(quantity := quantity));
    }
  }

  // ---------------------------------------------------------------------------------
  // The store

  /** The cart provider's state: the list of lines and its mirror in browser storage. */
  class CartStore {
    var items: seq<CartItem>
    var stored: StoredCart

    /** A fresh provider starts with no lines; storage holds whatever an earlier session left. */
    constructor (storage: StoredCart)
      ensures items == [] && stored == storage
    {
      items := [];
      stored := storage;
    }

    /**
     * The load-after-hydration effect followed by the persist effect: a saved array
     * replaces the list without any validation; anything else leaves it as it was.
     * Either way the list is then written back.
     */
    method LoadFromStorage()
      modifies this
      ensures items == (if old(stored).Saved? then old(stored).items else old(items))
      ensures stored == Saved(items)
    {
      match stored {
        case Saved(loaded) => items := loaded;
        case _ =>
      }
      stored := Saved(items);
    }

    /** `addItem(product, quantity = 1)` */
    method AddItem(product: Product, quantity: int := 1)
      modifies this
      ensures quantity <= 0 ==> items == old(items) && stored == old(stored)
      ensures quantity > 0 ==> items == WithAdded(old(items), product, quantity) && stored == Saved(items)
      ensures quantity > 0 && !HasSlug(old(items), product.slug) ==>
        items == old(items) + [CartItem(product, quantity)]
      ensures quantity > 0 && WellFormed(old(items)) ==>
        && WellFormed(items)
        && TotalQty(items) == TotalQty(old(items)) + quantity
        && Subtotal(items) == Subtotal(old(items)) + LinePrice(old(items), product) * quantity
    {
      if quantity <= 0 {
        return;
      }
      WithAddedEffect(items, product, quantity);
      if WellFormed(items) {
        AddItemKeepsInvariant(items, product, quantity);
      }
      items := WithAdded(items, product, quantity);
      stored := Saved(items);
    }

    /** `removeItem(slug)` */
    method RemoveItem(slug: string)
      modifies this
      ensures items == Removed(old(items), slug) && stored == Saved(items)
      ensures forall x :: x in items <==> x in old(items) && x.product.slug != slug
      ensures !HasSlug(old(items), slug) ==> items == old(items)
      ensures WellFormed(old(items)) ==> WellFormed(items)
    {
      RemovedMembers(items, slug);
      if !HasSlug(items, slug) {
        RemovedAbsent(items, slug);
      }
      if WellFormed(items) {
        RemovedKeepsInvariant(items, slug);
      }
      items := Removed(items, slug);
      stored := Saved(items);
    }

    /** `updateQty(slug, quantity)`: a non-positive quantity removes the line. */
    method UpdateQty(slug: string, quantity: int)
      modifies this
      ensures quantity <= 0 ==> items == Removed(old(items), slug)
      ensures quantity > 0 ==> items == SetLines(old(items), slug, quantity)
      ensures quantity > 0 && !HasSlug(old(items), slug) ==> items == old(items)
      ensures quantity > 0 && DistinctSlugs(old(items)) ==>
        forall i :: 0 <= i < |old(items)| && old(items)[i].product.slug == slug ==>
          items == old(items)[i := old(items)[i].(quantity := quantity)]
      ensures WellFormed(old(items)) ==> WellFormed(items)
      ensures stored == Saved(items)
    {
      if quantity <= 0 {
        RemoveItem(slug);
        return;
      }
      if !HasSlug(items, slug) {
        SetLinesAbsent(items, slug, quantity);
      }
      if DistinctSlugs(items) {
        forall i | 0 <= i < |items| && items[i].product.slug == slug
          ensures SetLines(items, slug, quantity) == items[i := items[i].(quantity := quantity)]
        {
          SetLinesAt(items, slug, quantity, i);
        }
      }
      if WellFormed(items) {
        SetLinesKeepsInvariant(items, slug, quantity);
      }
      items := SetLines(items, slug, quantity);
      stored := Saved(items);
    }

    /** `clearCart()` */
    method ClearCart()
      modifies this
      ensures items == [] && stored == Saved([])
      ensures TotalQty(items) == 0 && Subtotal(items) == 0 && WellFormed(items)
    {
      items := [];
      stored := Saved(items);
    }
  }

  /**
   * A page reload: a new provider mounts over what storage holds and loads it.
   * A saved list comes back unchanged; anything else gives an empty cart.
   */
  method Reload(storage: StoredCart) returns (loaded: seq<CartItem>)
    ensures storage.Saved? ==> loaded == storage.items
    ensures !storage.Saved? ==> loaded == []
  {
    var store := new CartStore(storage);
    store.LoadFromStorage();
    loaded := store.items;
  }
}
