/** POST /api/webhook: the payment processor's notification that a hosted
    payment session finished, reconciled against the order table. */
module Webhook {
  import opened Common
  import opened Store

  const CheckoutCompleted := "checkout.session.completed"

  /** A notification whose signature checked out: its type, and the order id
      from the session metadata (None when absent or empty). */
  datatype Event = Event(kind: string, orderId: Option<Id>)

  datatype Response = BadSignature | Received
  {
    function StatusCode(): int
    {
      match this
      case BadSignature => 400
      case Received => 200
    }
  }

  /** The order a verified event names for payment, if any. */
  function PaidTarget(e: Event): (r: Option<Id>)
    ensures r.Some? <==> e.kind == CheckoutCompleted && e.orderId.Some?
    ensures r.Some? ==> r == e.orderId
  {
    if e.kind == CheckoutCompleted then e.orderId else None
  }

  /** The status write: the named order becomes paid whatever its status was;
      an unknown id makes the update fail, which leaves the table as it was. */
  function MarkPaid(orders: map<Id, Order>, id: Id): (r: map<Id, Order>)
    ensures r.Keys == orders.Keys
    ensures id in orders ==> r[id] == orders[id].(status := Paid)
    ensures forall o :: o in orders && o != id ==> r[o] == orders[o]
    ensures id !in orders ==> r == orders
  {
    if id in orders then orders[id := orders[id].(status := Paid)] else orders
  }

  /** The order table after a verified event. */
  function Reconcile(orders: map<Id, Order>, e: Event): (r: map<Id, Order>)
    ensures PaidTarget(e).None? ==> r == orders
    ensures r.Keys == orders.Keys
    ensures forall o :: o in orders ==>
      r[o] == (if PaidTarget(e) == Some(o) then orders[o].(status := Paid) else orders[o])
  {
    match PaidTarget(e)
    case None => orders
    case Some(id) => MarkPaid(orders, id)
  }

  /** Replaying a notification changes nothing more: the write ignores the current status. */
  lemma ReconcileIdempotent(orders: map<Id, Order>, e: Event)
    ensures Reconcile(Reconcile(orders, e), e) == Reconcile(orders, e)
  {
    var once := Reconcile(orders, e);
    var twice := Reconcile(once, e);
    assert twice.Keys == once.Keys;
    forall o | o in once ensures twice[o] == once[o] {
    }
  }

  /** The only status a notification ever writes is "paid"; every other column stays. */
  lemma ReconcileOnlyPays(orders: map<Id, Order>, e: Event, o: Id)
    requires o in orders
    ensures var r := Reconcile(orders, e);
      && (r[o].status == orders[o].status || r[o].status == Paid)
      && r[o].(status := orders[o].status) == orders[o]
  {
  }

  lemma ReconcileKeepsValid(users: map<Id, User>, restaurants: map<Id, Restaurant>,
                            menuItems: map<Id, MenuItem>, orders: map<Id, Order>, nextId: Id, e: Event)
    requires ValidTables(users, restaurants, menuItems, orders, nextId)
    ensures ValidTables(users, restaurants, menuItems, Reconcile(orders, e), nextId)
  {
  }

  /** `verified` is the event as parsed by the processor's library, or None
      when the signature check throws. */
  method Post(db: Db, verified: Option<Event>) returns (r: Response)
    requires db.Valid()
    modifies db
    ensures db.Valid()
    ensures verified.None? ==> r == BadSignature && unchanged(db)
    ensures verified.Some? ==> r == Received
    ensures verified.Some? ==> db.orders == Reconcile(old(db.orders), verified.value)
    ensures db.users == old(db.users) && db.restaurants == old(db.restaurants)
    ensures db.menuItems == old(db.menuItems) && db.otps == old(db.otps) && db.nextId == old(db.nextId)
  {
    if verified.None? {
      return BadSignature;
    }
    var e := verified.value;
    if e.kind == CheckoutCompleted && e.orderId.Some? {
      var id := e.orderId.value;
      if id in db.orders {
        ReconcileKeepsValid(db.users, db.restaurants, db.menuItems, db.orders, db.nextId, e);
        db.orders := db.orders[id := db.orders[id].(status := Paid)];
      }
      // An update that fails (no such order) is logged and swallowed.
    }
    return Received;
  }
}
