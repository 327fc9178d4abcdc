/** GET /api/orders/user: the signed-in buyer's orders, newest first, with the
    restaurant's name and image and each item's menu name. */
module UserOrders {
  import opened Common
  import opened Store
  import opened Ordering

  datatype RestaurantSummary = RestaurantSummary(name: string, imagePath: Option<string>)

  datatype ItemView = ItemView(menuItemId: Id, quantity: int, price: int, menuName: string)

  datatype OrderView = OrderView(
    id: Id,
    userId: Id,
    restaurantId: Id,
    totalAmount: int,
    status: OrderStatus,
    createdAt: int,
    restaurant: RestaurantSummary,
    items: seq<ItemView>)

  datatype Response = Unauthorized | Orders(orders: seq<OrderView>)
  {
    function StatusCode(): int
    {
      match this
      case Unauthorized => 401
      case Orders(_) => 200
    }
  }

  function ItemViews(menuItems: map<Id, MenuItem>, items: seq<OrderItem>): (r: seq<ItemView>)
    requires forall i :: 0 <= i < |items| ==> items[i].menuItemId in menuItems
    ensures |r| == |items|
    ensures forall i :: 0 <= i < |items| ==>
      r[i] == ItemView(items[i].menuItemId, items[i].quantity, items[i].price, menuItems[items[i].menuItemId].name)
  {
    if items == [] then []
    else [ItemView(items[0].menuItemId, items[0].quantity, items[0].price, menuItems[items[0].menuItemId].name)]
         + ItemViews(menuItems, items[1..])
  }

  /** The order's restaurant and menu items exist, so the included relations resolve. */
  predicate Resolves(orders: map<Id, Order>, restaurants: map<Id, Restaurant>, menuItems: map<Id, MenuItem>, id: Id)
  {
    && id in orders && orders[id].restaurantId in restaurants
    && forall i :: 0 <= i < |orders[id].items| ==> orders[id].items[i].menuItemId in menuItems
  }

  /** One order as returned: all its columns, and only the selected related columns. */
  function View(orders: map<Id, Order>, restaurants: map<Id, Restaurant>, menuItems: map<Id, MenuItem>, id: Id): (v: OrderView)
    requires Resolves(orders, restaurants, menuItems, id)
    ensures v.id == id && v.userId == orders[id].userId && v.createdAt == orders[id].createdAt
    ensures v.status == orders[id].status && v.totalAmount == orders[id].totalAmount
    ensures v.restaurant.name == restaurants[orders[id].restaurantId].name
    ensures v.restaurant.imagePath == restaurants[orders[id].restaurantId].imagePath
    ensures |v.items| == |orders[id].items|
    ensures forall i :: 0 <= i < |v.items| ==>
      v.items[i].menuName == menuItems[orders[id].items[i].menuItemId].name
  {
    var o := orders[id];
    var rest := restaurants[o.restaurantId];
    OrderView(id, o.userId, o.restaurantId, o.totalAmount, o.status, o.createdAt,
              RestaurantSummary(rest.name, rest.imagePath), ItemViews(menuItems, o.items))
  }

  ghost function CreatedAt(orders: map<Id, Order>): (key: map<Id, int>)
    ensures key.Keys == orders.Keys
    ensures forall o :: o in orders ==> key[o] == orders[o].createdAt
  {
    map o | o in orders :: orders[o].createdAt
  }

  ghost function OrdersOf(orders: map<Id, Order>, buyer: Id): (ids: set<Id>)
    ensures forall o :: o in ids <==> o in orders && orders[o].userId == buyer
  {
    set o | o in orders && orders[o].userId == buyer
  }

  function Views(orders: map<Id, Order>, restaurants: map<Id, Restaurant>, menuItems: map<Id, MenuItem>,
                 ids: seq<Id>): (r: seq<OrderView>)
    requires forall i :: 0 <= i < |ids| ==> Resolves(orders, restaurants, menuItems, ids[i])
    ensures |r| == |ids|
    ensures forall i :: 0 <= i < |ids| ==> r[i] == View(orders, restaurants, menuItems, ids[i])
  {
    if ids == [] then [] else [View(orders, restaurants, menuItems, ids[0])] + Views(orders, restaurants, menuItems, ids[1..])
  }

  /** What the buyer gets: exactly their orders, each once, newest first
      (ties in any order), each as its view. */
  ghost predicate BuyerListing(orders: map<Id, Order>, restaurants: map<Id, Restaurant>,
                               menuItems: map<Id, MenuItem>, buyer: Id, vs: seq<OrderView>)
  {
    && |vs| == |OrdersOf(orders, buyer)|
    && (forall i :: 0 <= i < |vs| ==>
          && Resolves(orders, restaurants, menuItems, vs[i].id)
          && vs[i].userId == buyer
          && vs[i] == View(orders, restaurants, menuItems, vs[i].id))
    && (forall o :: o in orders && orders[o].userId == buyer ==>
          exists i :: 0 <= i < |vs| && vs[i].id == o)
    && (forall i, j :: 0 <= i < j < |vs| ==> vs[i].id != vs[j].id)
    && (forall i, j :: 0 <= i < j < |vs| ==> vs[i].createdAt >= vs[j].createdAt)
  }

  lemma ViewsOfOrdered(orders: map<Id, Order>, restaurants: map<Id, Restaurant>,
                       menuItems: map<Id, MenuItem>, buyer: Id, sorted: seq<Id>)
    requires forall i :: 0 <= i < |sorted| ==> Resolves(orders, restaurants, menuItems, sorted[i])
    requires |sorted| == |OrdersOf(orders, buyer)|
    requires forall o :: o in sorted <==> o in OrdersOf(orders, buyer)
    requires Distinct(sorted)
    requires forall i, j :: 0 <= i < j < |sorted| ==> orders[sorted[i]].createdAt >= orders[sorted[j]].createdAt
    ensures BuyerListing(orders, restaurants, menuItems, buyer, Views(orders, restaurants, menuItems, sorted))
  {
    var vs := Views(orders, restaurants, menuItems, sorted);
    forall i | 0 <= i < |vs|
      ensures Resolves(orders, restaurants, menuItems, vs[i].id) && vs[i].userId == buyer
      ensures vs[i] == View(orders, restaurants, menuItems, vs[i].id)
    {
      assert vs[i] == View(orders, restaurants, menuItems, sorted[i]);
      assert sorted[i] in sorted;
    }
    forall i, j | 0 <= i < j < |vs| ensures vs[i].id != vs[j].id && vs[i].createdAt >= vs[j].createdAt {
      assert vs[i] == View(orders, restaurants, menuItems, sorted[i]);
      assert vs[j] == View(orders, restaurants, menuItems, sorted[j]);
    }
    forall o | o in orders && orders[o].userId == buyer
      ensures exists i :: 0 <= i < |vs| && vs[i].id == o
    {
      assert o in sorted;
      var i :| 0 <= i < |sorted| && sorted[i] == o;
      assert vs[i].id == o;
    }
  }

  /** The response: 401 without a session, otherwise the buyer's listing. */
  ghost function Get(session: Option<Id>, users: map<Id, User>, orders: map<Id, Order>,
                     restaurants: map<Id, Restaurant>, menuItems: map<Id, MenuItem>): (r: Response)
    requires OrdersResolve(orders, users, restaurants, menuItems)
    ensures r == Unauthorized <==> session.None?
    ensures r.Orders? ==> BuyerListing(orders, restaurants, menuItems, session.value, r.orders)
  {
    if session.None? then Unauthorized
    else
      var key := CreatedAt(orders);
      var ids := OrdersOf(orders, session.value);
      var sorted := OrderedDesc(key, ids);
      OrderedDescFacts(key, ids);
      assert forall i :: 0 <= i < |sorted| ==> sorted[i] in ids;
      ViewsOfOrdered(orders, restaurants, menuItems, session.value, sorted);
      Orders(Views(orders, restaurants, menuItems, sorted))
  }
}
