/** POST /api/restaurant: an owner registers their restaurant and its menu. */
module RestaurantCreate {
  import opened Common
  import opened Store

  /** One entry of the `menu` form field after `JSON.parse`; the price is
      already read as pence. */
  datatype MenuEntry = MenuEntry(name: string, description: Option<string>, price: int)

  /** The `menu` form field: text that is not JSON, JSON that is not a list
      (including a missing field, which parses as null), or a list of entries. */
  datatype MenuField = Malformed | NotAList | Entries(entries: seq<MenuEntry>)

  /** The form. A text field is None when absent; `deliveryPrice` is None when
      it does not parse as a number. */
  datatype Form = Form(
    name: Option<string>,
    city: Option<string>,
    country: Option<string>,
    deliveryPrice: Option<int>,
    estimatedTime: Option<string>,
    cuisines: Option<string>,
    menu: MenuField)

  /** The image step: no file sent, a file stored under a path, or a failed upload. */
  datatype Upload = NoImage | Uploaded(path: string) | UploadFailed

  datatype Response =
    | Unauthorized
    | MissingFields
    | AlreadyOwner
    | ServerError
    | Created(restaurantId: Id)
  {
    function StatusCode(): int
    {
      match this
      case Unauthorized => 401
      case MissingFields => 400
      case AlreadyOwner => 400
      case ServerError => 500
      case Created(_) => 200
    }
  }

  /** Every text field present and non-empty, and a numeric delivery price. */
  predicate HasRequiredFields(f: Form)
  {
    && NonEmpty(f.name).Some? && NonEmpty(f.city).Some? && NonEmpty(f.country).Some?
    && f.deliveryPrice.Some? && NonEmpty(f.estimatedTime).Some? && NonEmpty(f.cuisines).Some?
  }

  function ImagePath(u: Upload): Option<string>
  {
    if u.Uploaded? then Some(u.path) else None
  }

  /** The menu rows created with the restaurant, numbered from `first` in entry
      order: each in the "Main" category, an empty description stored as null.
      Built one entry at a time. */
  function MenuRows(restaurantId: Id, first: Id, entries: seq<MenuEntry>): (rows: map<Id, MenuItem>)
    ensures forall k :: k in rows <==> first <= k < first + |entries|
    ensures forall k :: k in rows ==>
      var e := entries[k - first];
      rows[k] == MenuItem(restaurantId, e.name, NonEmpty(e.description), e.price, "Main")
    decreases |entries|
  {
    if entries == [] then map[]
    else
      var e := entries[|entries| - 1];
      MenuRows(restaurantId, first, entries[..|entries| - 1])[first + |entries| - 1 :=
        MenuItem(restaurantId, e.name, NonEmpty(e.description), e.price, "Main")]
  }

  /** The requests that create a restaurant. */
  ghost predicate Admitted(db_users: map<Id, User>, restaurants: map<Id, Restaurant>,
                           session: Option<Id>, f: Form, upload: Upload)
  {
    && session.Some? && HasRequiredFields(f) && f.menu.Entries?
    && !OwnsRestaurant(restaurants, session.value)
    && !upload.UploadFailed? && session.value in db_users
  }

  /** The menu table with the rows of a new restaurant's menu added. */
  function WithMenu(menuItems: map<Id, MenuItem>, id: Id, entries: seq<MenuEntry>): map<Id, MenuItem>
  {
    menuItems + MenuRows(id, id + 1, entries)
  }

  lemma InsertRestaurantKeepsValid(users: map<Id, User>, restaurants: map<Id, Restaurant>,
                                   menuItems: map<Id, MenuItem>, orders: map<Id, Order>, id: Id,
                                   rest: Restaurant, entries: seq<MenuEntry>)
    requires ValidTables(users, restaurants, menuItems, orders, id)
    requires !OwnsRestaurant(restaurants, rest.ownerId)
    ensures id !in restaurants
    ensures forall k :: k in MenuRows(id, id + 1, entries) ==> k !in menuItems
    ensures ValidTables(users, restaurants[id := rest], menuItems + MenuRows(id, id + 1, entries),
                        orders, id + 1 + |entries|)
  {
    var rows := MenuRows(id, id + 1, entries);
    var rs := restaurants[id := rest];
    forall a, b | a in rs && b in rs && a != b ensures rs[a].ownerId != rs[b].ownerId {
      if a != id && b != id {
      } else if a == id {
        assert restaurants[b].ownerId != rest.ownerId;
      } else {
        assert restaurants[a].ownerId != rest.ownerId;
      }
    }
  }

  /** `restaurant.create` with its nested `menuItems.create`: the restaurant
      takes the next key and its menu rows the keys after it. */
  method Insert(db: Db, rest: Restaurant, entries: seq<MenuEntry>) returns (id: Id)
    requires db.Valid()
    requires !OwnsRestaurant(db.restaurants, rest.ownerId)
    modifies db
    ensures db.Valid()
    ensures id == old(db.nextId) && id !in old(db.restaurants)
    ensures db.restaurants == old(db.restaurants)[id := rest]
    ensures db.menuItems == WithMenu(old(db.menuItems), id, entries)
    ensures db.nextId == id + 1 + |entries|
    ensures db.users == old(db.users) && db.orders == old(db.orders) && db.otps == old(db.otps)
  {
    id := db.nextId;
    InsertRestaurantKeepsValid(db.users, db.restaurants, db.menuItems, db.orders, id, rest, entries);
    db.restaurants := db.restaurants[id := rest];
    db.menuItems := WithMenu(db.menuItems, id, entries);
    db.nextId := id + 1 + |entries|;
  }

  /** `session` is the signed-in user, if any; `upload` is what the image
      store answered; `now` stamps `createdAt`; `openByDefault` is the
      column default of `isOpen`. */
  method Post(db: Db, session: Option<Id>, f: Form, upload: Upload, now: int, openByDefault: bool)
    returns (r: Response)
    requires db.Valid()
    modifies db
    ensures db.Valid()
    ensures session.None? ==> r == Unauthorized
    ensures session.Some? && !HasRequiredFields(f) ==> r == MissingFields
    ensures session.Some? && HasRequiredFields(f) && f.menu.Malformed? ==> r == ServerError
    ensures (session.Some? && HasRequiredFields(f) && !f.menu.Malformed?
             && OwnsRestaurant(old(db.restaurants), session.value)) ==> r == AlreadyOwner
    ensures r.Created? <==> Admitted(old(db.users), old(db.restaurants), session, f, upload)
    ensures !r.Created? ==> unchanged(db)
    ensures r.Created? ==>
      var id := old(db.nextId);
      && r.restaurantId == id && id !in old(db.restaurants)
      && db.restaurants == old(db.restaurants)[id := Restaurant(
           session.value, f.name.value, f.city.value, f.country.value, f.deliveryPrice.value,
           f.estimatedTime.value, f.cuisines.value, ImagePath(upload), None, openByDefault, now)]
      && db.menuItems == WithMenu(old(db.menuItems), id, f.menu.entries)
      && db.nextId == id + 1 + |f.menu.entries|
      && db.users == old(db.users) && db.orders == old(db.orders) && db.otps == old(db.otps)
  {
    if session.None? {
      return Unauthorized;
    }
    var owner := session.value;
    if !HasRequiredFields(f) {
      return MissingFields;
    }
    if f.menu.Malformed? {
      // JSON.parse throws.
      return ServerError;
    }
    var owned := exists k :: k in db.restaurants && db.restaurants[k].ownerId == owner;
    assert owned == OwnsRestaurant(db.restaurants, owner);
    if owned {
      return AlreadyOwner;
    }
    if upload.UploadFailed? || !f.menu.Entries? || owner !in db.users {
      // The upload throws, `map` is not a function of the parsed value, or
      // the owner row the restaurant must reference is missing.
      return ServerError;
    }
    var rest := Restaurant(owner, f.name.value, f.city.value, f.country.value, f.deliveryPrice.value,
                           f.estimatedTime.value, f.cuisines.value, ImagePath(upload), None, openByDefault, now);
    var id := Insert(db, rest, f.menu.entries);
    r := Created(id);
  }
}
