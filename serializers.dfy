/**
 * The write serializers of the API: request validation, the custom create
 * paths of orders and pizzas (which build the row and then attach the
 * related rows one `add` at a time), the immutability guard of the order
 * update, and the derived `pizza_count`.
 *
 * `total_sum` and `price` are read-only fields: no request type below
 * carries them, so a client can only ever reach them through the receivers.
 */
module Serializers {

  import opened Wrappers
  import opened Phone
  import opened Pricing
  import opened Models

  /** Why a request was refused: an unknown row in the URL, a field the validation refuses, the guard. */
  datatype Error = NotFound | InvalidInput | ImmutableOrder

  datatype Result<T> = Ok(value: T) | Err(error: Error)

  /** A PATCH body of an order: every writable field is optional. */
  datatype OrderPatch = OrderPatch(customer: Option<CustomerId>, status: Option<Status>, pizzas: Option<seq<PizzaId>>)

  /** `PrimaryKeyRelatedField(many=True)` accepts a list iff every key names an existing row. */
  predicate AllIn<T>(ids: seq<T>, keys: set<T>) {
    forall i :: 0 <= i < |ids| ==> ids[i] in keys
  }

  /** The last id of a list joins the set of the ones before it. */
  lemma ToSetSnoc<T>(ids: seq<T>, i: nat)
    requires i < |ids|
    ensures ToSet(ids[..i + 1]) == ToSet(ids[..i]) + {ids[i]}
  {
    assert forall j :: 0 <= j < i ==> ids[..i + 1][j] == ids[..i][j];
    assert ids[..i + 1][i] == ids[i];
  }

  /** The list field is accepted exactly when the set it names is made of existing rows. */
  lemma AllInToSet<T>(ids: seq<T>, keys: set<T>)
    ensures AllIn(ids, keys) <==> ToSet(ids) <= keys
  {
    if !AllIn(ids, keys) {
      var i :| 0 <= i < |ids| && ids[i] !in keys;
      assert ids[i] in ToSet(ids);
    }
  }

  /** Writing a key twice keeps the second value only. */
  lemma OverwriteTwice<K, V>(m: map<K, V>, k: K, first: V, second: V)
    ensures m[k := first][k := second] == m[k := second]
  {
  }

  /** `OrderSerializer.get_pizza_count`: `obj.pizzas.count()`, the number of distinct linked pizzas. */
  function PizzaCount(order: Order): nat {
    |order.pizzas|
  }

  /**
   * An order created from a list of pizza ids counts at most that many
   * pizzas, and exactly that many when no id is repeated.
   */
  lemma {:induction false} PizzaCountOfIds(customer: CustomerId, status: Status, ids: seq<PizzaId>, total: nat)
    ensures PizzaCount(Order(customer, status, ToSet(ids), total)) <= |ids|
    ensures PizzaCount(Order(customer, status, ToSet(ids), total)) == |ids| <==> NoRepeats(ids)
  {
    ToSetCardinality(ids);
  }

  lemma {:induction false} ToSetCardinality<T>(ids: seq<T>)
    ensures |ToSet(ids)| <= |ids|
    ensures |ToSet(ids)| == |ids| <==> NoRepeats(ids)
    decreases |ids|
  {
    if ids != [] {
      var n := |ids| - 1;
      var init := ids[..n];
      ToSetCardinality(init);
      ToSetSnoc(ids, n);
      assert ids[..n + 1] == ids;
      if ids[n] in ToSet(init) {
        assert ToSet(ids) == ToSet(init);
        var j :| 0 <= j < n && init[j] == ids[n];
        assert ids[j] == ids[n];
      } else {
        assert |ToSet(ids)| == |ToSet(init)| + 1;
        if NoRepeats(init) {
          forall i, j | 0 <= i < j < |ids|
            ensures ids[i] != ids[j]
          {
            if j == n {
              assert init[i] in ToSet(init);
            } else {
              assert init[i] != init[j];
            }
          }
        } else {
          var i, j :| 0 <= i < j < n && init[i] == init[j];
          assert ids[i] == ids[j];
        }
      }
    }
  }

  /** The price a pizza created from a list of flavour ids ends up with: no flavour, no receiver, price 0. */
  ghost function CreatedPrice(size: Size, ids: seq<FlavourId>, flavours: map<FlavourId, Flavour>): nat
    requires ToSet(ids) <= flavours.Keys
  {
    if ids == [] then 0 else PizzaPrice(size, ToSet(ids), flavours)
  }

  /**
   * The loop of `PizzaCreateSerializer.create`: each listed flavour is looked
   * up by (name, added price) and added to the new pizza `id`, and each `add`
   * re-prices it. The lookup finds the listed flavour itself, names being
   * unique. No order holds the new pizza, so no order changes.
   */
  method AddFlavours(s: Store, id: PizzaId, flavourIds: seq<FlavourId>)
    requires s.Valid() && id in s.pizzas && s.pizzas[id].flavours == {} && s.pizzas[id].price == 0
    requires forall o :: o in s.orders ==> id !in s.orders[o].pizzas
    requires ToSet(flavourIds) <= s.flavours.Keys
    modifies s
    ensures s.Valid()
    ensures s.flavours == old(s.flavours) && s.customers == old(s.customers) && s.orders == old(s.orders)
    ensures s.nextIds == old(s.nextIds)
    ensures s.pizzas == old(s.pizzas)[id := old(s.pizzas)[id].(flavours := ToSet(flavourIds),
                                                                price := CreatedPrice(old(s.pizzas)[id].size, flavourIds, s.flavours))]
  {
    ghost var created := s.pizzas;
    ghost var size := s.pizzas[id].size;
    assert ToSet(flavourIds[..0]) == {};
    var i := 0;
    while i < |flavourIds|
      invariant 0 <= i <= |flavourIds|
      invariant s.Valid()
      invariant s.flavours == old(s.flavours) && s.customers == old(s.customers) && s.orders == old(s.orders)
      invariant s.nextIds == old(s.nextIds)
      invariant s.pizzas == created[id := Pizza(size, ToSet(flavourIds[..i]), CreatedPrice(size, flavourIds[..i], s.flavours))]
    {
      var f := flavourIds[i];
      assert f in ToSet(flavourIds);
      var g :| g in s.flavours && s.flavours[g].name == s.flavours[f].name && s.flavours[g].addedPrice == s.flavours[f].addedPrice;
      assert g == f;
      ToSetSnoc(flavourIds, i);
      ghost var next := Pizza(size, ToSet(flavourIds[..i + 1]), PizzaPrice(size, ToSet(flavourIds[..i + 1]), s.flavours));
      ghost var orders := s.orders;
      ghost var before := s.pizzas[id];
      s.AddPizzaFlavour(id, g);
      RetotalledUntouched(orders, s.pizzas, {id});
      OverwriteTwice(created, id, before, next);
      i := i + 1;
    }
    assert flavourIds[..i] == flavourIds;
  }

  /**
   * `PizzaCreateSerializer.create`: the flavour list is validated, the pizza
   * is created (price 0, default size L), then its flavours are added.
   */
  method PizzaCreate(s: Store, size: Option<Size>, flavourIds: seq<FlavourId>) returns (r: Result<PizzaId>)
    requires s.Valid()
    modifies s
    ensures s.Valid()
    ensures s.flavours == old(s.flavours) && s.customers == old(s.customers) && s.orders == old(s.orders)
    ensures r.Ok? <==> AllIn(flavourIds, old(s.flavours).Keys)
    ensures r.Err? ==> r.error == InvalidInput && s.pizzas == old(s.pizzas) && s.nextIds == old(s.nextIds)
    ensures r.Ok? ==> r.value !in old(s.pizzas) && ToSet(flavourIds) <= s.flavours.Keys
    ensures r.Ok? ==> s.nextIds == old(s.nextIds).(pizza := r.value + 1)
    ensures r.Ok? ==> s.pizzas == old(s.pizzas)[r.value := Pizza(size.GetOr(L), ToSet(flavourIds),
                                                            CreatedPrice(size.GetOr(L), flavourIds, s.flavours))]
    ensures old(InitTotalsCurrent(s.orders, s.pizzas)) ==> InitTotalsCurrent(s.orders, s.pizzas)
    ensures old(PricesCurrent(s.pizzas, s.flavours)) && flavourIds != [] ==> PricesCurrent(s.pizzas, s.flavours)
  {
    if !AllIn(flavourIds, s.flavours.Keys) {
      return Err(InvalidInput);
    }
    AllInToSet(flavourIds, s.flavours.Keys);
    var id := s.CreatePizza(size.GetOr(L));
    AddFlavours(s, id, flavourIds);
    if old(InitTotalsCurrent(s.orders, s.pizzas)) {
      PricesKeptKeepTotalsCurrent(s.orders, old(s.pizzas), s.pizzas);
    }
    r := Ok(id);
  }

  /**
   * A PATCH of a pizza through `PizzaSerializer`: `price` is read-only and
   * the flavours are shown nested (read-only), so only the size can change.
   * The save reaches the pizza's INIT orders; the pizza's price is not
   * recomputed.
   */
  method PizzaPartialUpdate(s: Store, p: PizzaId, size: Option<Size>) returns (r: Result<Pizza>)
    requires s.Valid()
    modifies s
    ensures s.Valid()
    ensures s.flavours == old(s.flavours) && s.customers == old(s.customers) && s.nextIds == old(s.nextIds)
    ensures p !in old(s.pizzas) ==> r == Err(NotFound) && s.pizzas == old(s.pizzas) && s.orders == old(s.orders)
    ensures p in old(s.pizzas) ==>
      && r == Ok(old(s.pizzas)[p].(size := size.GetOr(old(s.pizzas)[p].size)))
      && s.pizzas == old(s.pizzas)[p := r.value]
      && s.orders == Retotalled(old(s.orders), s.pizzas, {p})
    ensures old(InitTotalsCurrent(s.orders, s.pizzas)) ==> InitTotalsCurrent(s.orders, s.pizzas)
  {
    if p !in s.pizzas {
      return Err(NotFound);
    }
    s.SavePizza(p, size.GetOr(s.pizzas[p].size));
    r := Ok(s.pizzas[p]);
  }

  /** DRF's `CharField` refuses text holding a NUL character (`ProhibitNullCharactersValidator`). */
  predicate NoNulCharacters(text: string) {
    forall i :: 0 <= i < |text| ==> text[i] != '\0'
  }

  /**
   * The column checks `CustomerSerializer` runs: required non-blank text,
   * `max_length`, no NUL character, the phone validator.
   */
  predicate CustomerAccepted(customer: Customer) {
    && 0 < |customer.name| <= 300 && NoNulCharacters(customer.name)
    && 0 < |customer.phoneNumber| && NoNulCharacters(customer.phoneNumber)
    && PhoneNumberValid(customer.phoneNumber)
    && 0 < |customer.address| && NoNulCharacters(customer.address)
  }

  /** `CustomerSerializer.create`: the row is created exactly when every column check passes. */
  method CustomerCreate(s: Store, customer: Customer) returns (r: Result<CustomerId>)
    requires s.Valid()
    modifies s
    ensures s.Valid()
    ensures s.flavours == old(s.flavours) && s.pizzas == old(s.pizzas) && s.orders == old(s.orders)
    ensures r.Ok? <==> CustomerAccepted(customer)
    ensures r.Err? ==> r.error == InvalidInput && s.customers == old(s.customers) && s.nextIds == old(s.nextIds)
    ensures r.Ok? ==> r.value !in old(s.customers) && s.customers == old(s.customers)[r.value := customer]
    ensures r.Ok? ==> s.nextIds == old(s.nextIds).(customer := r.value + 1)
  {
    if !CustomerAccepted(customer) {
      return Err(InvalidInput);
    }
    var id := s.CreateCustomer(customer);
    r := Ok(id);
  }

  /**
   * The loop of `OrderCreateSerializer.create`: each listed pizza is looked
   * up by id (`get_or_create` on an id already validated finds that pizza)
   * and added to the new order `id`, each `add` recomputing the total.
   */
  method AddPizzas(s: Store, id: OrderId, pizzaIds: seq<PizzaId>)
    requires s.Valid() && id in s.orders && s.orders[id].pizzas == {} && s.orders[id].totalSum == 0
    requires ToSet(pizzaIds) <= s.pizzas.Keys
    modifies s
    ensures s.Valid()
    ensures s.flavours == old(s.flavours) && s.pizzas == old(s.pizzas) && s.customers == old(s.customers)
    ensures s.nextIds == old(s.nextIds)
    ensures s.orders == old(s.orders)[id := old(s.orders)[id].(pizzas := ToSet(pizzaIds),
                                                              totalSum := OrderTotal(ToSet(pizzaIds), s.pizzas))]
    ensures old(InitTotalsCurrent(s.orders, s.pizzas)) ==> InitTotalsCurrent(s.orders, s.pizzas)
  {
    ghost var created := s.orders;
    ghost var order := s.orders[id];
    assert ToSet(pizzaIds[..0]) == {};
    var i := 0;
    while i < |pizzaIds|
      invariant 0 <= i <= |pizzaIds|
      invariant s.Valid()
      invariant s.flavours == old(s.flavours) && s.pizzas == old(s.pizzas) && s.customers == old(s.customers)
      invariant s.nextIds == old(s.nextIds)
      invariant s.orders == created[id := order.(pizzas := ToSet(pizzaIds[..i]), totalSum := OrderTotal(ToSet(pizzaIds[..i]), s.pizzas))]
      invariant old(InitTotalsCurrent(s.orders, s.pizzas)) ==> InitTotalsCurrent(s.orders, s.pizzas)
    {
      var p := pizzaIds[i];
      assert p in ToSet(pizzaIds);
      ToSetSnoc(pizzaIds, i);
      ghost var before := s.orders[id];
      s.AddOrderPizza(id, p);
      OverwriteTwice(created, id, before, order.(pizzas := ToSet(pizzaIds[..i + 1]),
                                                 totalSum := OrderTotal(ToSet(pizzaIds[..i + 1]), s.pizzas)));
      i := i + 1;
    }
    assert pizzaIds[..i] == pizzaIds;
  }

  /**
   * `OrderCreateSerializer.create`: the customer and the pizza list are
   * validated, the order is created with the given status (INIT when
   * absent), no pizzas and the total 0, then its pizzas are added.
   */
  method OrderCreate(s: Store, customer: CustomerId, status: Option<Status>, pizzaIds: seq<PizzaId>)
    returns (r: Result<OrderId>)
    requires s.Valid()
    modifies s
    ensures s.Valid()
    ensures s.flavours == old(s.flavours) && s.pizzas == old(s.pizzas) && s.customers == old(s.customers)
    ensures r.Ok? <==> customer in old(s.customers) && AllIn(pizzaIds, old(s.pizzas).Keys)
    ensures r.Err? ==> r.error == InvalidInput && s.orders == old(s.orders) && s.nextIds == old(s.nextIds)
    ensures r.Ok? ==> r.value !in old(s.orders) && ToSet(pizzaIds) <= s.pizzas.Keys
    ensures r.Ok? ==> s.nextIds == old(s.nextIds).(order := r.value + 1)
    ensures r.Ok? ==> s.orders == old(s.orders)[r.value := Order(customer, status.GetOr(Init), ToSet(pizzaIds),
                                                            OrderTotal(ToSet(pizzaIds), s.pizzas))]
    ensures old(InitTotalsCurrent(s.orders, s.pizzas)) ==> InitTotalsCurrent(s.orders, s.pizzas)
  {
    if !(customer in s.customers && AllIn(pizzaIds, s.pizzas.Keys)) {
      return Err(InvalidInput);
    }
    AllInToSet(pizzaIds, s.pizzas.Keys);
    var id := s.CreateOrder(customer, status.GetOr(Init));
    ghost var created := s.orders;
    AddPizzas(s, id, pizzaIds);
    OverwriteTwice(old(s.orders), id, created[id], s.orders[id]);
    r := Ok(id);
  }

  /** SHIPPED and DELIVERED orders can no longer be changed. */
  predicate Frozen(status: Status) {
    status == Shipped || status == Delivered
  }

  /** The fields of a PATCH name existing rows. */
  predicate PatchAccepted(patch: OrderPatch, customers: set<CustomerId>, pizzas: set<PizzaId>) {
    && (patch.customer.Some? ==> patch.customer.value in customers)
    && (patch.pizzas.Some? ==> AllIn(patch.pizzas.value, pizzas))
  }

  /**
   * The order after `ModelSerializer.update`: the given customer and status
   * are written and the row saved, then the pizza list, if given, is `set`,
   * which recomputes the total from the new set unless the list names the
   * current set with no id repeated.
   */
  ghost function Patched(x: Order, patch: OrderPatch, pizzas: map<PizzaId, Pizza>): Order
    requires patch.pizzas.Some? ==> ToSet(patch.pizzas.value) <= pizzas.Keys
  {
    var saved := x.(customer := patch.customer.GetOr(x.customer), status := patch.status.GetOr(x.status));
    if patch.pizzas.None? || (ToSet(patch.pizzas.value) == x.pizzas && NoRepeats(patch.pizzas.value)) then saved
    else saved.(pizzas := ToSet(patch.pizzas.value), totalSum := OrderTotal(ToSet(patch.pizzas.value), pizzas))
  }

  /**
   * A patched order carries the given fields and keeps the others; replacing
   * its pizzas yields exactly the new set, summed over the new set alone,
   * unless the list names the current set once each, which keeps the stored
   * total, current or stale.
   */
  lemma PatchedFields(x: Order, patch: OrderPatch, pizzas: map<PizzaId, Pizza>)
    requires patch.pizzas.Some? ==> ToSet(patch.pizzas.value) <= pizzas.Keys
    ensures Patched(x, patch, pizzas).customer == patch.customer.GetOr(x.customer)
    ensures Patched(x, patch, pizzas).status == patch.status.GetOr(x.status)
    ensures patch.pizzas.None? ==> Patched(x, patch, pizzas).pizzas == x.pizzas
    ensures patch.pizzas.None? ==> Patched(x, patch, pizzas).totalSum == x.totalSum
    ensures patch.pizzas.Some? ==> Patched(x, patch, pizzas).pizzas == ToSet(patch.pizzas.value)
    ensures patch.pizzas.Some? && (ToSet(patch.pizzas.value) != x.pizzas || !NoRepeats(patch.pizzas.value)) ==>
      Patched(x, patch, pizzas).totalSum == OrderTotal(ToSet(patch.pizzas.value), pizzas)
    ensures patch.pizzas.Some? && x.status == Init && x.pizzas <= pizzas.Keys && x.totalSum == OrderTotal(x.pizzas, pizzas) ==>
      Patched(x, patch, pizzas).totalSum == OrderTotal(ToSet(patch.pizzas.value), pizzas)
    ensures patch.pizzas.Some? && ToSet(patch.pizzas.value) == x.pizzas && NoRepeats(patch.pizzas.value) ==>
      Patched(x, patch, pizzas).totalSum == x.totalSum
  {
  }

  /**
   * A list that repeats a linked id re-adds it, and `add` fires the receiver
   * whatever the status: a PAID order holding pizza 1 at a stale total of
   * 15 is recomputed to the pizza's current 20 by `[1, 1]`, while `[1]`
   * leaves the total frozen.
   */
  lemma RepeatedIdRecomputesTotal()
    ensures Patched(Order(0, Paid, {1}, 15), OrderPatch(None, None, Some([1, 1])), map[1 := Pizza(L, {}, 20)]).totalSum == 20
    ensures Patched(Order(0, Paid, {1}, 15), OrderPatch(None, None, Some([1])), map[1 := Pizza(L, {}, 20)]).totalSum == 15
  {
    var pizzas := map[1 := Pizza(L, {}, 20)];
    assert ToSet([1, 1]) == {1} by {
      assert [1, 1][0] == 1;
    }
    assert ToSet([1]) == {1} by {
      assert [1][0] == 1;
    }
    assert !NoRepeats([1, 1]) by {
      assert [1, 1][0] == [1, 1][1];
    }
    OrderTotalSingle(pizzas, 1);
  }

  /**
   * `OrderCreateSerializer.update` behind a PATCH: an unknown order is not
   * found; a body naming a missing customer or pizza is refused first; an
   * order whose current status is SHIPPED or DELIVERED is refused whatever
   * the body says; otherwise the body is applied. A refused request changes
   * nothing.
   */
  method OrderPartialUpdate(s: Store, o: OrderId, patch: OrderPatch) returns (r: Result<Order>)
    requires s.Valid()
    modifies s
    ensures s.Valid()
    ensures s.flavours == old(s.flavours) && s.pizzas == old(s.pizzas) && s.customers == old(s.customers)
    ensures s.nextIds == old(s.nextIds)
    ensures o !in old(s.orders) ==> r == Err(NotFound)
    ensures o in old(s.orders) && !PatchAccepted(patch, old(s.customers).Keys, old(s.pizzas).Keys) ==> r == Err(InvalidInput)
    ensures o in old(s.orders) && PatchAccepted(patch, old(s.customers).Keys, old(s.pizzas).Keys) ==>
      (r == Err(ImmutableOrder) <==> Frozen(old(s.orders)[o].status))
    ensures r.Ok? <==> o in old(s.orders) && PatchAccepted(patch, old(s.customers).Keys, old(s.pizzas).Keys)
                       && !Frozen(old(s.orders)[o].status)
    ensures r.Err? ==> s.orders == old(s.orders)
    ensures r.Ok? ==>
      && o in old(s.orders) && PatchAccepted(patch, s.customers.Keys, s.pizzas.Keys)
      && (patch.pizzas.Some? ==> ToSet(patch.pizzas.value) <= s.pizzas.Keys)
      && r.value == Patched(old(s.orders)[o], patch, s.pizzas)
      && s.orders == old(s.orders)[o := r.value]
    ensures old(InitTotalsCurrent(s.orders, s.pizzas)) && (o in old(s.orders) ==> old(s.orders)[o].status == Init || patch.status != Some(Init)) ==>
      InitTotalsCurrent(s.orders, s.pizzas)
  {
    if o !in s.orders {
      return Err(NotFound);
    }
    if !PatchAccepted(patch, s.customers.Keys, s.pizzas.Keys) {
      return Err(InvalidInput);
    }
    if Frozen(s.orders[o].status) {
      return Err(ImmutableOrder);
    }
    s.SaveOrder(o, patch.customer.GetOr(s.orders[o].customer), patch.status.GetOr(s.orders[o].status));
    if patch.pizzas.Some? {
      AllInToSet(patch.pizzas.value, s.pizzas.Keys);
      ghost var saved := s.orders[o];
      s.SetOrderPizzas(o, patch.pizzas.value);
      OverwriteTwice(old(s.orders), o, saved, s.orders[o]);
    }
    r := Ok(s.orders[o]);
  }

  /**
   * The guard reads only the status before the update: a PATCH that ships
   * an order succeeds, and every later PATCH of that order is refused and
   * leaves it as the first one wrote it.
   */
  method ShipThenPatch(s: Store, o: OrderId, ship: OrderPatch, later: OrderPatch) returns (first: Result<Order>, second: Result<Order>)
    requires s.Valid() && ship.status == Some(Shipped)
    modifies s
    ensures first.Ok? <==> o in old(s.orders) && PatchAccepted(ship, old(s.customers).Keys, old(s.pizzas).Keys)
                           && !Frozen(old(s.orders)[o].status)
    ensures first.Ok? ==> first.value.status == Shipped && second.Err? && o in s.orders && s.orders[o] == first.value
  {
    first := OrderPartialUpdate(s, o, ship);
    second := OrderPartialUpdate(s, o, later);
  }
}
