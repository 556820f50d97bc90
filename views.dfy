/**
 * The order view set: the list filter on `customer_name` and `status`, the
 * HTTP methods it serves, and which serializer each action uses.
 */
module Views {

  import opened Wrappers
  import opened Models
  import Serializers

  /** The value stored in the `status` column for each status. */
  function StatusValue(status: Status): string {
    match status
    case Init => "init"
    case Paid => "paid"
    case Shipped => "shipped"
    case Delivered => "delivered"
  }

  /** A query parameter counts as given when it is present and non-empty (Python truthiness). */
  predicate Given(param: Option<string>) {
    param.Some? && param.value != ""
  }

  /**
   * One side of the `Q(...) | Q(...)` filter. An absent parameter filters on
   * `None`, which Django reads as `IS NULL`; the columns are never null, so
   * it matches no row. A present one, even empty, is an exact comparison.
   */
  predicate FieldEquals(param: Option<string>, column: string) {
    param.Some? && param.value == column
  }

  /** The name of the customer who placed order `o`. */
  function CustomerName(orders: map<OrderId, Order>, customers: map<CustomerId, Customer>, o: OrderId): string
    requires o in orders && CustomersExist(orders, customers)
  {
    customers[orders[o].customer].name
  }

  /**
   * `OrderViewSet.get_queryset`: every order when neither parameter is
   * given; otherwise the orders whose customer's name equals `customerName`
   * or whose status equals `status`.
   */
  function OrderQuery(orders: map<OrderId, Order>, customers: map<CustomerId, Customer>,
                      customerName: Option<string>, status: Option<string>): (r: set<OrderId>)
    requires CustomersExist(orders, customers)
    ensures r <= orders.Keys
    ensures !Given(customerName) && !Given(status) ==> r == orders.Keys
  {
    if Given(customerName) || Given(status) then
      set o | o in orders && (FieldEquals(customerName, CustomerName(orders, customers, o))
                              || FieldEquals(status, StatusValue(orders[o].status)))
    else orders.Keys
  }

  /** The orders placed by a customer of the given name. */
  function OrdersOfCustomerNamed(orders: map<OrderId, Order>, customers: map<CustomerId, Customer>, name: string): set<OrderId>
    requires CustomersExist(orders, customers)
  {
    set o | o in orders && CustomerName(orders, customers, o) == name
  }

  /** The orders whose status column holds the given value. */
  function OrdersWithStatus(orders: map<OrderId, Order>, value: string): set<OrderId> {
    set o | o in orders && StatusValue(orders[o].status) == value
  }

  /**
   * With both parameters present and one of them given, the result is the
   * union of the two single-field filters: OR, not AND.
   */
  lemma FilterIsUnion(orders: map<OrderId, Order>, customers: map<CustomerId, Customer>, name: string, value: string)
    requires CustomersExist(orders, customers) && (name != "" || value != "")
    ensures OrderQuery(orders, customers, Some(name), Some(value)) ==
      OrdersOfCustomerNamed(orders, customers, name) + OrdersWithStatus(orders, value)
  {
  }

  /** A parameter left out matches nothing: filtering on the status alone gives the orders with that status. */
  lemma AbsentNameMatchesNothing(orders: map<OrderId, Order>, customers: map<CustomerId, Customer>, value: string)
    requires CustomersExist(orders, customers) && value != ""
    ensures OrderQuery(orders, customers, None, Some(value)) == OrdersWithStatus(orders, value)
  {
  }

  /** Filtering on the customer name alone gives that customer's orders, whatever their status. */
  lemma AbsentStatusMatchesNothing(orders: map<OrderId, Order>, customers: map<CustomerId, Customer>, name: string)
    requires CustomersExist(orders, customers) && name != ""
    ensures OrderQuery(orders, customers, Some(name), None) == OrdersOfCustomerNamed(orders, customers, name)
  {
  }

  /** A status value that is none of the four choices, with no name given, lists no order. */
  lemma UnknownStatusListsNothing(orders: map<OrderId, Order>, customers: map<CustomerId, Customer>, value: string)
    requires CustomersExist(orders, customers) && value != ""
    requires value != "init" && value != "paid" && value != "shipped" && value != "delivered"
    ensures OrderQuery(orders, customers, None, Some(value)) == {}
    ensures OrderQuery(orders, customers, Some(""), Some(value)) == OrdersOfCustomerNamed(orders, customers, "")
  {
    forall o | o in orders
      ensures StatusValue(orders[o].status) != value
    {
    }
  }

  /** The HTTP methods a client can send, and the view-set actions the router maps them to. */
  datatype HttpMethod = Get | Post | Put | Patch | Delete

  datatype Action = List | Retrieve | Create | Update | PartialUpdate | Destroy

  /**
   * The action a request reaches: on the collection or on one row
   * (`detail`). PUT is not among `http_method_names` and is refused with
   * no action; POST exists only on the collection.
   */
  function ActionOf(verb: HttpMethod, detail: bool): (r: Option<Action>)
    ensures r.Some? ==> verb != Put
    ensures r != Some(Update)
    ensures r == Some(PartialUpdate) <==> verb == Patch && detail
  {
    match verb
    case Get => Some(if detail then Retrieve else List)
    case Post => if detail then None else Some(Create)
    case Put => None
    case Patch => if detail then Some(PartialUpdate) else None
    case Delete => if detail then Some(Destroy) else None
  }

  datatype OrderSerializerClass = OrderSerializer | OrderCreateSerializer

  /** `OrderViewSet.get_serializer_class`. */
  function OrderSerializerFor(action: Action): OrderSerializerClass {
    if action == Create || action == PartialUpdate then OrderCreateSerializer else OrderSerializer
  }

  /**
   * Every request that reaches `update` or `partial_update` is a PATCH of
   * one row and goes through `OrderCreateSerializer`, whose `update` holds
   * the guard; were PUT served, its `update` action would go through the
   * read serializer. DELETE reaches `destroy`, which has no guard.
   */
  lemma EveryOrderWriteIsGuarded(verb: HttpMethod, detail: bool)
    ensures ActionOf(verb, detail).Some? && ActionOf(verb, detail).value in {Update, PartialUpdate} ==>
      verb == Patch && detail && OrderSerializerFor(ActionOf(verb, detail).value) == OrderCreateSerializer
    ensures OrderSerializerFor(Update) == OrderSerializer
  {
  }

  /**
   * The requests served through the order write serializer are exactly a
   * POST to the collection and a PATCH of one row; every GET and DELETE, and
   * every refused request, goes elsewhere.
   */
  lemma OrderWriteSerializerRequests(verb: HttpMethod, detail: bool)
    ensures (ActionOf(verb, detail).Some? && OrderSerializerFor(ActionOf(verb, detail).value) == OrderCreateSerializer)
      <==> (verb == Post && !detail) || (verb == Patch && detail)
  {
  }

  datatype PizzaSerializerClass = PizzaSerializer | PizzaCreateSerializer

  /** `PizzaViewSet.get_serializer_class`. */
  function PizzaSerializerFor(action: Action): PizzaSerializerClass {
    if action == Create then PizzaCreateSerializer else PizzaSerializer
  }

  /**
   * Only a POST to the pizza collection uses the create serializer. A PATCH
   * of one pizza goes through the read serializer, whose flavours are nested
   * read-only and whose price is read-only, so only the size is writable.
   */
  lemma PizzaRequestSerializer(verb: HttpMethod, detail: bool)
    ensures ActionOf(verb, detail).Some? ==>
      (PizzaSerializerFor(ActionOf(verb, detail).value) == PizzaCreateSerializer <==> verb == Post && !detail)
    ensures ActionOf(Patch, true) == Some(PartialUpdate) && PizzaSerializerFor(PartialUpdate) == PizzaSerializer
  {
  }

  /**
   * PATCH of `/orders/{o}/`. `get_object` looks the row up in `get_queryset`,
   * so the query string's filter applies to the detail route too: an order
   * the filter leaves out is not found, before any validation. An order it
   * keeps goes through the guarded update.
   */
  method OrderPatchRequest(s: Store, o: OrderId, customerName: Option<string>, status: Option<string>,
                           patch: Serializers.OrderPatch) returns (r: Serializers.Result<Order>)
    requires s.Valid()
    modifies s
    ensures s.Valid()
    ensures s.flavours == old(s.flavours) && s.pizzas == old(s.pizzas) && s.customers == old(s.customers)
    ensures s.nextIds == old(s.nextIds)
    ensures o !in old(OrderQuery(s.orders, s.customers, customerName, status)) ==>
      r == Serializers.Err(Serializers.NotFound) && s.orders == old(s.orders)
    ensures r.Ok? <==>
      && o in old(OrderQuery(s.orders, s.customers, customerName, status))
      && Serializers.PatchAccepted(patch, old(s.customers).Keys, old(s.pizzas).Keys)
      && !Serializers.Frozen(old(s.orders)[o].status)
    ensures r.Err? ==> s.orders == old(s.orders)
    ensures r.Ok? ==>
      && (patch.pizzas.Some? ==> ToSet(patch.pizzas.value) <= s.pizzas.Keys)
      && r.value == Serializers.Patched(old(s.orders)[o], patch, s.pizzas)
      && s.orders == old(s.orders)[o := r.value]
  {
    if o !in OrderQuery(s.orders, s.customers, customerName, status) {
      return Serializers.Err(Serializers.NotFound);
    }
    r := Serializers.OrderPartialUpdate(s, o, patch);
  }

  /**
   * DELETE of `/orders/{o}/`: the same filtered lookup, then the row is
   * deleted whatever its status; `destroy` has no immutability guard.
   */
  method OrderDeleteRequest(s: Store, o: OrderId, customerName: Option<string>, status: Option<string>)
    returns (r: Serializers.Result<OrderId>)
    requires s.Valid()
    modifies s
    ensures s.Valid()
    ensures s.flavours == old(s.flavours) && s.pizzas == old(s.pizzas) && s.customers == old(s.customers)
    ensures s.nextIds == old(s.nextIds)
    ensures r.Ok? <==> o in old(OrderQuery(s.orders, s.customers, customerName, status))
    ensures r.Err? ==> r == Serializers.Err(Serializers.NotFound) && s.orders == old(s.orders)
    ensures r.Ok? ==> r.value == o && s.orders == old(s.orders) - {o}
  {
    if o !in OrderQuery(s.orders, s.customers, customerName, status) {
      return Serializers.Err(Serializers.NotFound);
    }
    s.DeleteOrder(o);
    r := Serializers.Ok(o);
  }

  /**
   * The filter of the detail lookup, on one INIT order of customer `A`:
   * `?status=paid` hides it, so a PATCH or DELETE of it is not found, while
   * `?customer_name=A&status=paid` keeps it.
   */
  lemma FilteredDetailLookup(c: CustomerId, o: OrderId)
    ensures var orders := map[o := Order(c, Init, {}, 0)];
            var customers := map[c := Customer("A", "+11111111111111", "street")];
            && o !in OrderQuery(orders, customers, None, Some("paid"))
            && o in OrderQuery(orders, customers, Some("A"), Some("paid"))
  {
    var orders := map[o := Order(c, Init, {}, 0)];
    var customers := map[c := Customer("A", "+11111111111111", "street")];
    assert StatusValue(Init) == "init";
    assert CustomerName(orders, customers, o) == "A";
  }
}
