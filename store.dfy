/** The persistent tables the routes read and write (users, restaurants, menu
    items, orders with their items, one-time-password records), the entity
    records stored in them, and the table invariants the routes keep. */
module Store {
  import opened Common

  /** The order status values the application stores and displays. */
  datatype OrderStatus = PendingPayment | Paid | Preparing | OutForDelivery | Delivered | Cancelled
  {
    function Name(): string
    {
      match this
      case PendingPayment => "pending_payment"
      case Paid => "paid"
      case Preparing => "preparing"
      case OutForDelivery => "out_for_delivery"
      case Delivered => "delivered"
      case Cancelled => "cancelled"
    }
  }

  /** Reading a stored status string back: exactly the six names are recognised. */
  function ParseStatus(s: string): (r: Option<OrderStatus>)
    ensures r.Some? ==> r.value.Name() == s
    ensures forall st: OrderStatus :: st.Name() == s ==> r == Some(st)
  {
    if s == "pending_payment" then Some(PendingPayment)
    else if s == "paid" then Some(Paid)
    else if s == "preparing" then Some(Preparing)
    else if s == "out_for_delivery" then Some(OutForDelivery)
    else if s == "delivered" then Some(Delivered)
    else if s == "cancelled" then Some(Cancelled)
    else None
  }

  datatype User = User(
    firstName: string,
    lastName: string,
    email: string,
    username: string,
    password: Digest,
    phoneNumber: Option<string>,
    otp: Option<string>,
    isVerified: bool,
    role: string,
    profileImage: Option<string>,
    addressLine1: Option<string>,
    addressLine2: Option<string>,
    city: Option<string>,
    country: Option<string>)

  /** Prices and fees are in pence; `rating` is the stored average, absent until reviewed. */
  datatype Restaurant = Restaurant(
    ownerId: Id,
    name: string,
    city: string,
    country: string,
    deliveryPrice: int,
    estimatedTime: string,
    cuisines: string,
    imagePath: Option<string>,
    rating: Option<int>,
    isOpen: bool,
    createdAt: int)

  datatype MenuItem = MenuItem(
    restaurantId: Id,
    name: string,
    description: Option<string>,
    price: int,
    category: string)

  /** An order line: the menu item, the quantity as sent, the price snapshot. */
  datatype OrderItem = OrderItem(menuItemId: Id, quantity: int, price: int)

  datatype Order = Order(
    userId: Id,
    restaurantId: Id,
    totalAmount: int,
    status: OrderStatus,
    createdAt: int,
    items: seq<OrderItem>)

  /** A one-time password issued to an email address, valid up to `expiresAt` (ms). */
  datatype OtpRecord = OtpRecord(otp: string, expiresAt: int)

  // ---------------------------------------------------------------------------
  // Table invariants (the unique columns and the references between rows)

  ghost predicate KeysBelow<V>(m: map<Id, V>, n: Id)
  {
    forall k :: k in m ==> k < n
  }

  /** email, username and phoneNumber are unique columns. */
  ghost predicate UniqueAccounts(users: map<Id, User>)
  {
    forall a, b :: a in users && b in users && a != b ==>
      && users[a].email != users[b].email
      && users[a].username != users[b].username
      && (users[a].phoneNumber.Some? ==> users[a].phoneNumber != users[b].phoneNumber)
  }

  /** ownerId is a unique column: at most one restaurant per owner. */
  ghost predicate OneRestaurantPerOwner(restaurants: map<Id, Restaurant>)
  {
    forall a, b :: a in restaurants && b in restaurants && a != b ==>
      restaurants[a].ownerId != restaurants[b].ownerId
  }

  ghost predicate MenuResolves(menuItems: map<Id, MenuItem>, restaurants: map<Id, Restaurant>)
  {
    forall m :: m in menuItems ==> menuItems[m].restaurantId in restaurants
  }

  ghost predicate OrdersResolve(orders: map<Id, Order>, users: map<Id, User>,
                                restaurants: map<Id, Restaurant>, menuItems: map<Id, MenuItem>)
  {
    forall o :: o in orders ==>
      && orders[o].userId in users
      && orders[o].restaurantId in restaurants
      && forall i :: 0 <= i < |orders[o].items| ==> orders[o].items[i].menuItemId in menuItems
  }

  ghost predicate ValidTables(users: map<Id, User>, restaurants: map<Id, Restaurant>,
                              menuItems: map<Id, MenuItem>, orders: map<Id, Order>, nextId: Id)
  {
    && KeysBelow(users, nextId)
    && KeysBelow(restaurants, nextId)
    && KeysBelow(menuItems, nextId)
    && KeysBelow(orders, nextId)
    && UniqueAccounts(users)
    && OneRestaurantPerOwner(restaurants)
    && MenuResolves(menuItems, restaurants)
    && OrdersResolve(orders, users, restaurants, menuItems)
  }

  /** Changing a user's non-unique columns keeps every table invariant. */
  lemma UpdateUserKeepsValid(users: map<Id, User>, restaurants: map<Id, Restaurant>,
                             menuItems: map<Id, MenuItem>, orders: map<Id, Order>, nextId: Id,
                             id: Id, u: User)
    requires ValidTables(users, restaurants, menuItems, orders, nextId)
    requires id in users
    requires u.email == users[id].email && u.username == users[id].username
    requires u.phoneNumber == users[id].phoneNumber
    ensures ValidTables(users[id := u], restaurants, menuItems, orders, nextId)
  {
  }

  /** The unique-column part of the same fact. */
  lemma UpdateUserKeepsUnique(users: map<Id, User>, id: Id, u: User)
    requires UniqueAccounts(users) && id in users
    requires u.email == users[id].email && u.username == users[id].username
    requires u.phoneNumber == users[id].phoneNumber
    ensures UniqueAccounts(users[id := u])
  {
  }

  // ---------------------------------------------------------------------------
  // Lookups on unique columns (`findUnique`)

  ghost predicate EmailTaken(users: map<Id, User>, email: string)
  {
    exists id :: id in users && users[id].email == email
  }

  ghost function UserWithEmail(users: map<Id, User>, email: string): (id: Id)
    requires EmailTaken(users, email)
    ensures id in users && users[id].email == email
  {
    var id :| id in users && users[id].email == email; id
  }

  lemma EmailOwner(users: map<Id, User>, email: string, id: Id)
    requires UniqueAccounts(users) && id in users && users[id].email == email
    ensures EmailTaken(users, email) && UserWithEmail(users, email) == id
  {
  }

  ghost predicate UsernameTaken(users: map<Id, User>, username: string)
  {
    exists id :: id in users && users[id].username == username
  }

  ghost predicate PhoneTaken(users: map<Id, User>, phone: string)
  {
    exists id :: id in users && users[id].phoneNumber == Some(phone)
  }

  ghost predicate OwnsRestaurant(restaurants: map<Id, Restaurant>, owner: Id)
  {
    exists id :: id in restaurants && restaurants[id].ownerId == owner
  }

  /** The rows with the given ids, in that order, each projected to the
      fields a listing selects. */
  function Projected<R, C>(rows: map<Id, R>, ids: seq<Id>, project: (Id, R) -> C): (cs: seq<C>)
    requires forall i :: 0 <= i < |ids| ==> ids[i] in rows
    ensures |cs| == |ids|
    ensures forall i :: 0 <= i < |ids| ==> cs[i] == project(ids[i], rows[ids[i]])
  {
    if ids == [] then [] else [project(ids[0], rows[ids[0]])] + Projected(rows, ids[1..], project)
  }

  /** The application database. Every route receives it and the tables are
      the maps below; `nextId` stands for the store's key generator. */
  class Db {
    var users: map<Id, User>
    var restaurants: map<Id, Restaurant>
    var menuItems: map<Id, MenuItem>
    var orders: map<Id, Order>
    var otps: map<string, OtpRecord>
    var nextId: Id

    ghost predicate Valid()
      reads this
    {
      ValidTables(users, restaurants, menuItems, orders, nextId)
    }

    constructor ()
      ensures Valid()
      ensures users == map[] && restaurants == map[] && menuItems == map[]
      ensures orders == map[] && otps == map[]
    {
      users, restaurants, menuItems, orders, otps := map[], map[], map[], map[], map[];
      nextId := 0;
    }

    /** `order.create`: the new row takes the next key. */
    method InsertOrder(o: Order) returns (id: Id)
      requires Valid()
      requires o.userId in users && o.restaurantId in restaurants
      requires forall i :: 0 <= i < |o.items| ==> o.items[i].menuItemId in menuItems
      modifies this
      ensures Valid()
      ensures id == old(nextId) && id !in old(orders)
      ensures orders == old(orders)[id := o] && nextId == id + 1
      ensures users == old(users) && restaurants == old(restaurants)
      ensures menuItems == old(menuItems) && otps == old(otps)
    {
      id := nextId;
      orders := orders[id := o];
      nextId := id + 1;
    }

    /** `user.update` of columns that are not unique. */
    method UpdateUser(id: Id, u: User)
      requires Valid() && id in users
      requires u.email == users[id].email && u.username == users[id].username
      requires u.phoneNumber == users[id].phoneNumber
      modifies this
      ensures Valid()
      ensures users == old(users)[id := u]
      ensures restaurants == old(restaurants) && menuItems == old(menuItems)
      ensures orders == old(orders) && otps == old(otps) && nextId == old(nextId)
    {
      UpdateUserKeepsValid(users, restaurants, menuItems, orders, nextId, id, u);
      users := users[id := u];
    }
  }
}
