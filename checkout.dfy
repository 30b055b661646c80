/** The checkout page: shipping, the sign-in guard, validation and order submission. */
module CheckoutPage {
  import opened Wrappers
  import opened ProductTypes
  import opened Api
  import opened Auth
  import opened Cart

  /** The flat shipping fee is 45 cedis, that is 4500 pesewas. */
  const ShippingFee := 45 * 100
  const SignInRedirect := "/signin?redirect=/checkout"
  const MissingFieldsMessage := "Please fill in all required fields."
  const EmptyCartMessage := "Your cart is empty."
  const OrderFallback := "Order submission failed."
  const OrdersPath := "/api/orders"

  /** Shipping is charged only on a positive subtotal. */
  function Shipping(subtotal: int): (r: int)
    ensures r >= 0
    ensures r > 0 <==> subtotal > 0
    ensures r != 0 ==> r == ShippingFee
  {
    if subtotal > 0 then ShippingFee else 0
  }

  /** For a cart of positive prices and quantities, shipping is due exactly when the cart has lines. */
  lemma ShippingIffNonEmpty(items: seq<CartItem>)
    requires forall i :: 0 <= i < |items| ==> items[i].product.price > 0 && items[i].quantity > 0
    ensures Shipping(Subtotal(items)) == (if items == [] then 0 else ShippingFee)
  {
    SubtotalPositive(items);
  }

  /** The redirect effect fires once loading has finished and nobody is signed in. */
  function RedirectTarget(isLoading: bool, isAuthenticated: bool): (r: Option<string>)
    ensures r.Some? <==> !isLoading && !isAuthenticated
    ensures r.Some? ==> r.value == SignInRedirect
  {
    if !isLoading && !isAuthenticated then Some(SignInRedirect) else None
  }

  datatype CheckoutForm = CheckoutForm(fullName: string, email: string, phone: string, address: string, deliveryNotes: string)

  /** The pre-fill effect: a signed-in user's name, email and phone replace those fields. */
  function Prefill(user: Option<AuthUser>, form: CheckoutForm): (r: CheckoutForm)
    ensures user.None? ==> r == form
    ensures user.Some? ==> r.fullName == user.value.fullName && r.email == user.value.email
                            && r.phone == user.value.phone.GetOr("")
    ensures r.address == form.address && r.deliveryNotes == form.deliveryNotes
  {
    match user
    case None => form
    case Some(u) => form.(fullName := u.fullName, email := u.email, phone := u.phone.GetOr(""))
  }

  predicate FieldsFilled(form: CheckoutForm) {
    form.fullName != "" && form.email != "" && form.phone != "" && form.address != ""
  }

  /** The two guards of `handleSubmit`, fields first, then the cart. */
  function Refusal(form: CheckoutForm, items: seq<CartItem>): (r: Option<string>)
    ensures r == Some(MissingFieldsMessage) <==> !FieldsFilled(form)
    ensures r == Some(EmptyCartMessage) <==> FieldsFilled(form) && items == []
    ensures r.None? <==> FieldsFilled(form) && items != []
  {
    if !FieldsFilled(form) then Some(MissingFieldsMessage)
    else if items == [] then Some(EmptyCartMessage)
    else None
  }

  datatype Customer = Customer(name: string, email: string, phone: string, address: string)
  datatype OrderLine = OrderLine(productId: string, nameSnapshot: string, priceSnapshot: int, qty: int, lineTotal: int)
  datatype OrderPayload = OrderPayload(customer: Customer, items: seq<OrderLine>, deliveryNotes: string)

  function Line(item: CartItem): OrderLine {
    OrderLine(item.product.id, item.product.name, item.product.price, item.quantity, item.product.price * item.quantity)
  }

  /** The `items.map(...)` snapshot of the cart. */
  function OrderLines(items: seq<CartItem>): (r: seq<OrderLine>)
    ensures |r| == |items|
    ensures forall i :: 0 <= i < |r| ==> r[i].productId == items[i].product.id && r[i].qty == items[i].quantity
    ensures forall i :: 0 <= i < |r| ==>
              && r[i].nameSnapshot == items[i].product.name && r[i].priceSnapshot == items[i].product.price
              && r[i].lineTotal == items[i].product.price * items[i].quantity
  {
    seq(|items|, i requires 0 <= i < |items| => Line(items[i]))
  }

  /** The sum of the line totals of an order, in the order's own order. */
  function LinesTotal(lines: seq<OrderLine>): (r: int)
    ensures (forall i :: 0 <= i < |lines| ==> lines[i].lineTotal >= 0) ==> r >= 0
  {
    if lines == [] then 0 else LinesTotal(lines[..|lines| - 1]) + lines[|lines| - 1].lineTotal
  }

  /** Each order line snapshots its cart line, and price times quantity gives its total. */
  lemma OrderLineSnapshot(items: seq<CartItem>, i: nat)
    requires i < |items|
    ensures |OrderLines(items)| == |items|
    ensures OrderLines(items)[i].productId == items[i].product.id
    ensures OrderLines(items)[i].qty == items[i].quantity
    ensures OrderLines(items)[i].nameSnapshot == items[i].product.name
    ensures OrderLines(items)[i].priceSnapshot == items[i].product.price
    ensures OrderLines(items)[i].lineTotal == OrderLines(items)[i].priceSnapshot * OrderLines(items)[i].qty
  {
  }

  /** The line totals the order carries add up to the cart's subtotal. */
  lemma {:induction false} OrderLinesTotal(items: seq<CartItem>)
    ensures LinesTotal(OrderLines(items)) == Subtotal(items)
    decreases |items|
  {
    if items != [] {
      var init := items[..|items| - 1];
      var lines := OrderLines(items);
      assert lines[..|lines| - 1] == OrderLines(init);
      OrderLinesTotal(init);
    }
  }

  /** The order posted for `form` and the cart lines: one line per cart line, totalling the subtotal. */
  function Payload(form: CheckoutForm, items: seq<CartItem>): (r: OrderPayload)
    ensures |r.items| == |items| && LinesTotal(r.items) == Subtotal(items)
    ensures r.customer == Customer(form.fullName, form.email, form.phone, form.address)
    ensures r.deliveryNotes == form.deliveryNotes
  {
    OrderLinesTotal(items);
    OrderPayload(Customer(form.fullName, form.email, form.phone, form.address), OrderLines(items), form.deliveryNotes)
  }

  datatype CheckoutOutcome = Refused(message: string) | Placed(order: OrderPayload) | Failed(order: OrderPayload, message: string)

  /**
   * `handleSubmit` against the cart provider, with the orders call's outcome as `response`.
   * The cart is cleared only when the order is accepted.
   */
  method SubmitOrder(cart: CartStore, form: CheckoutForm, response: Result<JsValue, Thrown>)
    returns (outcome: CheckoutOutcome)
    modifies cart
    ensures Refusal(form, old(cart.items)).Some? ==>
              outcome == Refused(Refusal(form, old(cart.items)).value) && unchanged(cart)
    ensures Refusal(form, old(cart.items)).None? && response.Success? ==>
              outcome == Placed(Payload(form, old(cart.items))) && cart.items == [] && cart.stored == Saved([])
    ensures Refusal(form, old(cart.items)).None? && response.Failure? ==>
              outcome == Failed(Payload(form, old(cart.items)), MessageOf(response.error, OrderFallback))
              && unchanged(cart)
    ensures outcome.Placed? || outcome.Failed? ==> LinesTotal(outcome.order.items) == Subtotal(old(cart.items))
  {
    var refusal := Refusal(form, cart.items);
    if refusal.Some? {
      return Refused(refusal.value);
    }
    var order := Payload(form, cart.items);
    OrderLinesTotal(cart.items);
    match response {
      case Success(_) =>
        cart.ClearCart();
        outcome := Placed(order);
      case Failure(e) =>
        outcome := Failed(order, MessageOf(e, OrderFallback));
    }
  }
}
