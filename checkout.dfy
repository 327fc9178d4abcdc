/** POST /api/checkout: turns a cart into a stored order awaiting payment and
    into the line items of a hosted payment session.
    Amounts are in pence, so the route's `Math.round(x * 100)` is the identity. */
module Checkout {
  import opened Common
  import opened Store

  datatype CartLine = CartLine(menuItemId: Id, quantity: int)

  /** Only addressLine1 is required by the route; an absent optional field arrives as "". */
  datatype DeliveryDetails = DeliveryDetails(addressLine1: string, addressLine2: string, city: string, country: string)

  /** The JSON body. `restaurantId` is None when missing or empty; `items` is
      None when missing or not an array. `totalAmount` is whatever the client sent. */
  datatype CheckoutBody = CheckoutBody(
    restaurantId: Option<Id>,
    items: Option<seq<CartLine>>,
    deliveryDetails: Option<DeliveryDetails>,
    totalAmount: int)

  /** One `line_items` entry of the payment session (currency "gbp"). */
  datatype LineItem = LineItem(name: string, description: Option<string>, unitAmount: int, quantity: int)

  /** A callback URL of the payment session: the page and the order it names. */
  datatype Redirect = Redirect(path: string, orderId: Id)

  /** What the route asks the payment processor for. */
  datatype PaymentRequest = PaymentRequest(
    lineItems: seq<LineItem>,
    successUrl: Redirect,
    cancelUrl: Redirect,
    orderId: Id,
    userId: Id)

  datatype Response =
    | Unauthorized
    | InvalidOrder
    | RestaurantNotFound
    | ServerError
    | SessionCreated(url: string, orderId: Id)
  {
    function StatusCode(): int
    {
      match this
      case Unauthorized => 401
      case InvalidOrder => 400
      case RestaurantNotFound => 404
      case ServerError => 500
      case SessionCreated(_, _) => 200
    }
  }

  const SuccessPath := "/checkout/success"
  const CancelPath := "/checkout/cancel"

  /** A restaurant id and a non-empty array of items; quantities are not inspected. */
  predicate WellFormedCart(body: CheckoutBody)
  {
    body.restaurantId.Some? && body.items.Some? && |body.items.value| > 0
  }

  predicate InCatalog(catalog: map<Id, MenuItem>, cart: seq<CartLine>)
  {
    forall i :: 0 <= i < |cart| ==> cart[i].menuItemId in catalog
  }

  /** The order lines: each cart line with the catalog's current price. The
      lookup of an unknown menu item throws, which makes the whole result None. */
  function Snapshot(catalog: map<Id, MenuItem>, cart: seq<CartLine>): (r: Option<seq<OrderItem>>)
    ensures r.Some? <==> InCatalog(catalog, cart)
    ensures r.Some? ==> |r.value| == |cart|
    ensures r.Some? ==> forall i :: 0 <= i < |cart| ==>
      r.value[i] == OrderItem(cart[i].menuItemId, cart[i].quantity, catalog[cart[i].menuItemId].price)
  {
    if cart == [] then Some([])
    else if cart[0].menuItemId !in catalog then None
    else
      match Snapshot(catalog, cart[1..])
      case None => None
      case Some(rest) =>
        Some([OrderItem(cart[0].menuItemId, cart[0].quantity, catalog[cart[0].menuItemId].price)] + rest)
  }

  predicate ItemsInCatalog(catalog: map<Id, MenuItem>, items: seq<OrderItem>)
  {
    forall i :: 0 <= i < |items| ==> items[i].menuItemId in catalog
  }

  /** The line for one order item: the menu item's name, its description or
      nothing when empty, the snapshotted price and the quantity. */
  function ProductLine(m: MenuItem, item: OrderItem): LineItem
  {
    LineItem(m.name, NonEmpty(m.description), item.price, item.quantity)
  }

  function DeliveryLine(r: Restaurant): LineItem
  {
    LineItem("Delivery Fee", Some("Delivery from " + r.name), r.deliveryPrice, 1)
  }

  function ProductLines(catalog: map<Id, MenuItem>, items: seq<OrderItem>): (r: seq<LineItem>)
    requires ItemsInCatalog(catalog, items)
    ensures |r| == |items|
    ensures forall i :: 0 <= i < |items| ==> r[i] == ProductLine(catalog[items[i].menuItemId], items[i])
  {
    if items == [] then []
    else [ProductLine(catalog[items[0].menuItemId], items[0])] + ProductLines(catalog, items[1..])
  }

  /** The session's line items: one per order item, in order, then the delivery fee. */
  function LineItems(catalog: map<Id, MenuItem>, items: seq<OrderItem>, r: Restaurant): (lines: seq<LineItem>)
    requires ItemsInCatalog(catalog, items)
    ensures |lines| == |items| + 1
    ensures lines[..|items|] == ProductLines(catalog, items)
    ensures lines[|items|] == DeliveryLine(r) && lines[|items|].quantity == 1
  {
    ProductLines(catalog, items) + [DeliveryLine(r)]
  }

  /** What the processor charges for a list of line items. */
  function Charged(lines: seq<LineItem>): int
  {
    if lines == [] then 0 else lines[0].unitAmount * lines[0].quantity + Charged(lines[1..])
  }

  /** Σ quantity × catalog price over the cart. */
  function CatalogCost(catalog: map<Id, MenuItem>, cart: seq<CartLine>): int
    requires InCatalog(catalog, cart)
  {
    if cart == [] then 0
    else cart[0].quantity * catalog[cart[0].menuItemId].price + CatalogCost(catalog, cart[1..])
  }

  lemma {:induction false} ChargedAppend(a: seq<LineItem>, b: seq<LineItem>)
    ensures Charged(a + b) == Charged(a) + Charged(b)
    decreases |a|
  {
    if a == [] {
      assert a + b == b;
    } else {
      assert (a + b)[1..] == a[1..] + b;
      ChargedAppend(a[1..], b);
    }
  }

  lemma {:induction false} ChargedProducts(catalog: map<Id, MenuItem>, cart: seq<CartLine>)
    requires InCatalog(catalog, cart)
    ensures var items := Snapshot(catalog, cart).value;
      ItemsInCatalog(catalog, items) && Charged(ProductLines(catalog, items)) == CatalogCost(catalog, cart)
    decreases |cart|
  {
    var items := Snapshot(catalog, cart).value;
    if cart != [] {
      ChargedProducts(catalog, cart[1..]);
      var tail := Snapshot(catalog, cart[1..]).value;
      assert items[1..] == tail;
      assert ProductLines(catalog, items)[1..] == ProductLines(catalog, tail);
    }
  }

  /** What the customer is charged: the catalog price of every cart line times
      its quantity, plus the restaurant's delivery fee, over |cart| + 1 lines. */
  lemma ChargedAmount(catalog: map<Id, MenuItem>, cart: seq<CartLine>, r: Restaurant)
    requires InCatalog(catalog, cart)
    ensures var items := Snapshot(catalog, cart).value;
      && ItemsInCatalog(catalog, items)
      && |LineItems(catalog, items, r)| == |cart| + 1
      && Charged(LineItems(catalog, items, r)) == CatalogCost(catalog, cart) + r.deliveryPrice
  {
    var items := Snapshot(catalog, cart).value;
    var fee := DeliveryLine(r);
    ChargedProducts(catalog, cart);
    ChargedAppend(ProductLines(catalog, items), [fee]);
    assert LineItems(catalog, items, r) == ProductLines(catalog, items) + [fee];
    assert [fee][1..] == [];
    assert Charged([fee]) == fee.unitAmount * 1;
  }

  predicate UpdatesAddress(body: CheckoutBody)
  {
    body.deliveryDetails.Some? && body.deliveryDetails.value.addressLine1 != ""
  }

  /** The buyer's address after checkout: line 1 as sent, the optional fields null when empty. */
  function WithAddress(u: User, d: DeliveryDetails): User
  {
    u.(addressLine1 := Some(d.addressLine1), addressLine2 := OrNull(d.addressLine2),
       city := OrNull(d.city), country := OrNull(d.country))
  }

  /** The requests that reach `order.create` and succeed: a signed-in buyer
      whose row exists, a well-formed cart, a known restaurant and known menu items. */
  ghost predicate Admitted(users: map<Id, User>, restaurants: map<Id, Restaurant>,
                           menuItems: map<Id, MenuItem>, session: Option<Id>, body: CheckoutBody)
  {
    && session.Some? && session.value in users
    && WellFormedCart(body)
    && body.restaurantId.value in restaurants
    && InCatalog(menuItems, body.items.value)
  }

  /** `session` is the signed-in user, if any; `gateway` is the URL the payment
      processor answers with, or None when the session request fails. */
  method Post(db: Db, session: Option<Id>, raw: Json<CheckoutBody>, now: int, gateway: Option<string>)
    returns (r: Response, sent: Option<PaymentRequest>)
    requires db.Valid()
    modifies db
    ensures db.Valid()
    ensures session.None? ==> r == Unauthorized
    ensures session.Some? && raw.NotJson? ==> r == ServerError
    ensures raw.NotJson? ==> sent == None && unchanged(db)
    ensures raw.Parsed? ==> (var body := raw.value;
      session.Some? && !WellFormedCart(body) ==> r == InvalidOrder)
    ensures raw.Parsed? ==> (var body := raw.value;
      session.Some? && WellFormedCart(body) && body.restaurantId.value !in old(db.restaurants)
      ==> r == RestaurantNotFound)
    ensures raw.Parsed? ==> (var body := raw.value;
      session.Some? && WellFormedCart(body) && body.restaurantId.value in old(db.restaurants)
      && !Admitted(old(db.users), old(db.restaurants), old(db.menuItems), session, body)
      ==> r == ServerError)
    ensures raw.Parsed? ==> (var body := raw.value;
      !Admitted(old(db.users), old(db.restaurants), old(db.menuItems), session, body)
      ==> sent == None && unchanged(db))
    ensures raw.Parsed? ==> (var body := raw.value;
      Admitted(old(db.users), old(db.restaurants), old(db.menuItems), session, body) ==>
        var id, buyer, rid := old(db.nextId), session.value, body.restaurantId.value;
        var items := Snapshot(old(db.menuItems), body.items.value).value;
        && db.nextId == id + 1 && id !in old(db.orders)
        && db.orders == old(db.orders)[id := Order(buyer, rid, body.totalAmount, PendingPayment, now, items)]
        && db.users == (if UpdatesAddress(body)
                        then old(db.users)[buyer := WithAddress(old(db.users)[buyer], body.deliveryDetails.value)]
                        else old(db.users))
        && db.restaurants == old(db.restaurants) && db.menuItems == old(db.menuItems) && db.otps == old(db.otps)
        && sent.Some?
        && sent.value == PaymentRequest(LineItems(db.menuItems, items, db.restaurants[rid]),
                                        Redirect(SuccessPath, id), Redirect(CancelPath, id), id, buyer)
        && Charged(sent.value.lineItems) == CatalogCost(db.menuItems, body.items.value) + db.restaurants[rid].deliveryPrice
        && r == (if gateway.Some? then SessionCreated(gateway.value, id) else ServerError))
  {
    if session.None? {
      return Unauthorized, None;
    }
    var buyer := session.value;
    if raw.NotJson? {
      return ServerError, None;
    }
    var body := raw.value;
    if !WellFormedCart(body) {
      return InvalidOrder, None;
    }
    var rid := body.restaurantId.value;
    if rid !in db.restaurants {
      return RestaurantNotFound, None;
    }
    var restaurant := db.restaurants[rid];
    var snapshot := Snapshot(db.menuItems, body.items.value);
    if snapshot.None? || buyer !in db.users {
      // A failed menu lookup, or a buyer row the order cannot reference.
      return ServerError, None;
    }
    var items := snapshot.value;
    ChargedAmount(db.menuItems, body.items.value, restaurant);
    var id := db.InsertOrder(Order(buyer, rid, body.totalAmount, PendingPayment, now, items));
    if UpdatesAddress(body) {
      db.UpdateUser(buyer, WithAddress(db.users[buyer], body.deliveryDetails.value));
    }
    var lines := LineItems(db.menuItems, items, restaurant);
    sent := Some(PaymentRequest(lines, Redirect(SuccessPath, id), Redirect(CancelPath, id), id, buyer));
    r := if gateway.Some? then SessionCreated(gateway.value, id) else ServerError;
  }
}
