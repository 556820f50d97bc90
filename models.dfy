/**
 * The four stored entities, the derived prices, and the in-memory store
 * whose methods are the ORM writes of the application together with the
 * signal receivers those writes trigger, called explicitly:
 *
 *   flavour saved                -> UpdatePizzaPrice     (every pizza using it)
 *   pizza's flavour set changed  -> SavePizzaPrice       (that pizza)
 *   pizza saved                  -> UpdateOrderTotalPrice (its INIT orders)
 *   order's pizza set changed    -> SaveOrderTotalPrice  (that order)
 *
 * A receiver that saves a pizza triggers the pizza receiver in turn, so a
 * flavour change reaches the orders through the pizzas.
 */
module Models {

  import opened Sums
  import opened Pricing
  import opened Phone

  type FlavourId = nat
  type PizzaId = nat
  type CustomerId = nat
  type OrderId = nat

  datatype Flavour = Flavour(name: string, addedPrice: nat)

  /** `price` is the stored column; it is derived, never set by a client. */
  datatype Pizza = Pizza(size: Size, flavours: set<FlavourId>, price: nat)

  datatype Customer = Customer(name: string, phoneNumber: string, address: string)

  datatype Status = Init | Paid | Shipped | Delivered

  /** `totalSum` is the stored column; it is derived, never set by a client. */
  datatype Order = Order(customer: CustomerId, status: Status, pizzas: set<PizzaId>, totalSum: nat)

  /** The primary key each table hands out next (auto-increment, never reused). */
  datatype NextIds = NextIds(flavour: nat, pizza: nat, customer: nat, order: nat)

  /** The set of primary keys a many-to-many list names; repeats collapse. */
  function ToSet<T>(ids: seq<T>): set<T> {
    set i | 0 <= i < |ids| :: ids[i]
  }

  /** No id is listed twice. */
  predicate NoRepeats<T(==)>(ids: seq<T>) {
    forall i, j :: 0 <= i < j < |ids| ==> ids[i] != ids[j]
  }

  function AddedPrices(flavours: map<FlavourId, Flavour>): map<FlavourId, nat> {
    map f | f in flavours :: flavours[f].addedPrice
  }

  function Prices(pizzas: map<PizzaId, Pizza>): map<PizzaId, nat> {
    map p | p in pizzas :: pizzas[p].price
  }

  /** `Pizza.get_price`: (sum of the flavours' added prices + 10) times the size coefficient. */
  ghost function PizzaPrice(size: Size, ids: set<FlavourId>, flavours: map<FlavourId, Flavour>): nat
    requires ids <= flavours.Keys
  {
    SizedPrice(size, SumOver(ids, AddedPrices(flavours)) + BasePrice)
  }

  /** `Order.get_total_sum`: the sum of the stored prices of the order's pizzas. */
  ghost function OrderTotal(ids: set<PizzaId>, pizzas: map<PizzaId, Pizza>): nat
    requires ids <= pizzas.Keys
  {
    SumOver(ids, Prices(pizzas))
  }

  /** The pizza with its price column refreshed from the current flavour prices. */
  ghost function Priced(pizza: Pizza, flavours: map<FlavourId, Flavour>): Pizza
    requires pizza.flavours <= flavours.Keys
  {
    pizza.(price := PizzaPrice(pizza.size, pizza.flavours, flavours))
  }

  ghost predicate KeysBelow<V>(m: map<nat, V>, bound: nat) {
    forall k :: k in m ==> k < bound
  }

  ghost predicate FlavoursExist(pizzas: map<PizzaId, Pizza>, flavours: map<FlavourId, Flavour>) {
    forall p :: p in pizzas ==> pizzas[p].flavours <= flavours.Keys
  }

  ghost predicate PizzasExist(orders: map<OrderId, Order>, pizzas: map<PizzaId, Pizza>) {
    forall o :: o in orders ==> orders[o].pizzas <= pizzas.Keys
  }

  ghost predicate CustomersExist(orders: map<OrderId, Order>, customers: map<CustomerId, Customer>) {
    forall o :: o in orders ==> orders[o].customer in customers
  }

  /** Flavour names are a unique column. */
  ghost predicate UniqueNames(flavours: map<FlavourId, Flavour>) {
    forall f, g :: f in flavours && g in flavours && flavours[f].name == flavours[g].name ==> f == g
  }

  ghost predicate ValidPhones(customers: map<CustomerId, Customer>) {
    forall c :: c in customers ==> PhoneNumberValid(customers[c].phoneNumber)
  }

  /** Every INIT order's stored total equals the sum of its pizzas' stored prices. */
  ghost predicate InitTotalsCurrent(orders: map<OrderId, Order>, pizzas: map<PizzaId, Pizza>) {
    forall o :: o in orders && orders[o].status == Init && orders[o].pizzas <= pizzas.Keys ==>
      orders[o].totalSum == OrderTotal(orders[o].pizzas, pizzas)
  }

  /** The pizzas whose flavour set contains `f` (`flavour.pizza_set`). */
  function PizzasWith(pizzas: map<PizzaId, Pizza>, f: FlavourId): set<PizzaId> {
    set p | p in pizzas && f in pizzas[p].flavours
  }

  /** The pizza table after the prices of the pizzas in `affected` are refreshed. */
  ghost function Repriced(pizzas: map<PizzaId, Pizza>, flavours: map<FlavourId, Flavour>, affected: set<PizzaId>): (r: map<PizzaId, Pizza>)
    requires FlavoursExist(pizzas, flavours)
    ensures r.Keys == pizzas.Keys
    ensures forall p :: p in r ==> r[p].size == pizzas[p].size && r[p].flavours == pizzas[p].flavours
  {
    map p | p in pizzas :: if p in affected then Priced(pizzas[p], flavours) else pizzas[p]
  }

  /**
   * The order table after the pizzas in `touched` were saved: every INIT
   * order holding one of them gets its total recomputed; every other order
   * keeps its stored total.
   */
  ghost function Retotalled(orders: map<OrderId, Order>, pizzas: map<PizzaId, Pizza>, touched: set<PizzaId>): (r: map<OrderId, Order>)
    requires PizzasExist(orders, pizzas)
    ensures r.Keys == orders.Keys
    ensures forall o :: o in r ==>
      r[o].customer == orders[o].customer && r[o].status == orders[o].status && r[o].pizzas == orders[o].pizzas
  {
    map o | o in orders ::
      if orders[o].status == Init && !(orders[o].pizzas !! touched)
      then orders[o].(totalSum := OrderTotal(orders[o].pizzas, pizzas))
      else orders[o]
  }

  /** Refreshing one more pizza extends the set of refreshed pizzas by it. */
  lemma RepricedStep(pizzas: map<PizzaId, Pizza>, flavours: map<FlavourId, Flavour>, done: set<PizzaId>, p: PizzaId)
    requires FlavoursExist(pizzas, flavours) && p in pizzas
    ensures Repriced(pizzas, flavours, done)[p := Priced(pizzas[p], flavours)] == Repriced(pizzas, flavours, done + {p})
  {
  }

  /**
   * Saving pizza `p` after its price changed, once the orders of the pizzas
   * in `done` are up to date, leaves the orders of `done + {p}` up to date:
   * an INIT order that does not hold `p` does not see the new price.
   */
  lemma RetotalledStep(orders: map<OrderId, Order>, current: map<PizzaId, Pizza>, next: map<PizzaId, Pizza>,
                       done: set<PizzaId>, p: PizzaId)
    requires PizzasExist(orders, current) && current.Keys == next.Keys
    requires forall q :: q in current && q != p ==> next[q].price == current[q].price
    ensures PizzasExist(Retotalled(orders, current, done), next)
    ensures Retotalled(Retotalled(orders, current, done), next, {p}) == Retotalled(orders, next, done + {p})
  {
    var mid := Retotalled(orders, current, done);
    var lhs := Retotalled(mid, next, {p});
    var rhs := Retotalled(orders, next, done + {p});
    forall o | o in orders
      ensures lhs[o] == rhs[o]
    {
      var x := orders[o];
      if x.status == Init && p !in x.pizzas && !(x.pizzas !! done) {
        SumOverAgree(x.pizzas, Prices(current), Prices(next));
      }
    }
    assert lhs.Keys == rhs.Keys;
  }

  /** Saving pizzas that no order holds changes no order. */
  lemma RetotalledUntouched(orders: map<OrderId, Order>, pizzas: map<PizzaId, Pizza>, touched: set<PizzaId>)
    requires PizzasExist(orders, pizzas)
    requires forall o :: o in orders ==> orders[o].pizzas !! touched
    ensures Retotalled(orders, pizzas, touched) == orders
  {
  }

  /** Refreshing no pizza changes no pizza. */
  lemma RepricedNothing(pizzas: map<PizzaId, Pizza>, flavours: map<FlavourId, Flavour>)
    requires FlavoursExist(pizzas, flavours)
    ensures Repriced(pizzas, flavours, {}) == pizzas
  {
  }

  /**
   * If INIT totals were current and only the pizzas in `touched` changed
   * price, recomputing the INIT orders that hold a touched pizza makes every
   * INIT total current again.
   */
  lemma RetotalledKeepsTotalsCurrent(orders: map<OrderId, Order>, before: map<PizzaId, Pizza>,
                                     after: map<PizzaId, Pizza>, touched: set<PizzaId>)
    requires PizzasExist(orders, before) && before.Keys == after.Keys
    requires forall p :: p in before && p !in touched ==> after[p].price == before[p].price
    requires InitTotalsCurrent(orders, before)
    ensures PizzasExist(orders, after)
    ensures InitTotalsCurrent(Retotalled(orders, after, touched), after)
  {
    var r := Retotalled(orders, after, touched);
    forall o | o in r && r[o].status == Init && r[o].pizzas <= after.Keys
      ensures r[o].totalSum == OrderTotal(r[o].pizzas, after)
    {
      if orders[o].pizzas !! touched {
        SumOverAgree(orders[o].pizzas, Prices(before), Prices(after));
      }
    }
  }

  /** Changing a flavour a pizza does not use leaves that pizza's computed price alone. */
  lemma PriceIgnoresOtherFlavours(pizza: Pizza, flavours: map<FlavourId, Flavour>, f: FlavourId, flavour: Flavour)
    requires pizza.flavours <= flavours.Keys && f !in pizza.flavours
    ensures PizzaPrice(pizza.size, pizza.flavours, flavours[f := flavour]) == PizzaPrice(pizza.size, pizza.flavours, flavours)
  {
    SumOverAgree(pizza.flavours, AddedPrices(flavours[f := flavour]), AddedPrices(flavours));
  }

  /** A pizza costs at least the base price plus its flavours. */
  lemma PizzaPriceAtLeastIngredients(size: Size, ids: set<FlavourId>, flavours: map<FlavourId, Flavour>)
    requires ids <= flavours.Keys
    ensures PizzaPrice(size, ids, flavours) >= SumOver(ids, AddedPrices(flavours)) + BasePrice
    ensures forall f :: f in ids ==> PizzaPrice(size, ids, flavours) >= flavours[f].addedPrice + BasePrice
  {
    SizedPriceOrdered(SumOver(ids, AddedPrices(flavours)) + BasePrice);
    forall f | f in ids
      ensures PizzaPrice(size, ids, flavours) >= flavours[f].addedPrice + BasePrice
    {
      SumOverBounds(ids, AddedPrices(flavours), f);
    }
  }

  /** The worked examples: one flavour at 100 gives 110, 137 and 165; one at 5 gives 15. */
  lemma PriceExamples(flavours: map<FlavourId, Flavour>, f: FlavourId)
    requires f in flavours
    ensures flavours[f].addedPrice == 100 ==>
      PizzaPrice(L, {f}, flavours) == 110 && PizzaPrice(XL, {f}, flavours) == 137 && PizzaPrice(XXL, {f}, flavours) == 165
    ensures flavours[f].addedPrice == 5 ==> PizzaPrice(L, {f}, flavours) == 15
  {
    SumOverSingleton(f, AddedPrices(flavours));
  }

  /** An order of one pizza totals that pizza's price. */
  lemma OrderTotalSingle(pizzas: map<PizzaId, Pizza>, p: PizzaId)
    requires p in pizzas
    ensures OrderTotal({p}, pizzas) == pizzas[p].price
  {
    SumOverSingleton(p, Prices(pizzas));
  }

  /** Every pizza's stored price equals the pricing function of its current flavours. */
  ghost predicate PricesCurrent(pizzas: map<PizzaId, Pizza>, flavours: map<FlavourId, Flavour>) {
    forall p :: p in pizzas && pizzas[p].flavours <= flavours.Keys ==>
      pizzas[p].price == PizzaPrice(pizzas[p].size, pizzas[p].flavours, flavours)
  }

  /**
   * Saving flavour `f` with a new added price and refreshing the pizzas that
   * use it keeps every stored price current: the other pizzas' prices do not
   * depend on `f`.
   */
  lemma {:induction false} FlavourSaveKeepsPricesCurrent(pizzas: map<PizzaId, Pizza>, flavours: map<FlavourId, Flavour>,
                                                          f: FlavourId, flavour: Flavour)
    requires FlavoursExist(pizzas, flavours) && f in flavours
    requires PricesCurrent(pizzas, flavours)
    ensures FlavoursExist(pizzas, flavours[f := flavour])
    ensures PricesCurrent(Repriced(pizzas, flavours[f := flavour], PizzasWith(pizzas, f)), flavours[f := flavour])
  {
    var after := flavours[f := flavour];
    var r := Repriced(pizzas, after, PizzasWith(pizzas, f));
    forall p | p in r && r[p].flavours <= after.Keys
      ensures r[p].price == PizzaPrice(r[p].size, r[p].flavours, after)
    {
      if f !in pizzas[p].flavours {
        PriceIgnoresOtherFlavours(pizzas[p], flavours, f, flavour);
      }
    }
  }

  /** Re-pricing the one pizza whose flavour set changed keeps every stored price current. */
  lemma FlavourSetChangeKeepsPricesCurrent(pizzas: map<PizzaId, Pizza>, flavours: map<FlavourId, Flavour>,
                                           p: PizzaId, ids: set<FlavourId>)
    requires PricesCurrent(pizzas, flavours) && p in pizzas && ids <= flavours.Keys
    ensures PricesCurrent(pizzas[p := Priced(pizzas[p].(flavours := ids), flavours)], flavours)
  {
  }

  /**
   * Saving an order with a new status keeps INIT totals current unless it
   * re-opens an order: a PAID order set back to INIT keeps its frozen total.
   */
  lemma SaveOrderKeepsTotalsCurrent(orders: map<OrderId, Order>, pizzas: map<PizzaId, Pizza>,
                                    o: OrderId, customer: CustomerId, status: Status)
    requires InitTotalsCurrent(orders, pizzas) && o in orders
    requires orders[o].status == Init || status != Init
    ensures InitTotalsCurrent(orders[o := orders[o].(customer := customer, status := status)], pizzas)
  {
  }

  /** Recomputing an order's total after its pizza set changed keeps INIT totals current. */
  lemma PizzaSetChangeKeepsTotalsCurrent(orders: map<OrderId, Order>, pizzas: map<PizzaId, Pizza>,
                                         o: OrderId, ids: set<PizzaId>)
    requires InitTotalsCurrent(orders, pizzas) && o in orders && ids <= pizzas.Keys
    ensures InitTotalsCurrent(orders[o := orders[o].(pizzas := ids, totalSum := OrderTotal(ids, pizzas))], pizzas)
  {
  }

  /**
   * INIT totals stay current when no pizza an order can hold changes its
   * stored price: a new pizza, or a pizza edited without touching its price.
   */
  lemma {:induction false} PricesKeptKeepTotalsCurrent(orders: map<OrderId, Order>, before: map<PizzaId, Pizza>,
                                                        after: map<PizzaId, Pizza>)
    requires PizzasExist(orders, before) && before.Keys <= after.Keys
    requires forall p :: p in before ==> after[p].price == before[p].price
    requires InitTotalsCurrent(orders, before)
    ensures PizzasExist(orders, after)
    ensures InitTotalsCurrent(orders, after)
  {
    forall o | o in orders && orders[o].status == Init && orders[o].pizzas <= after.Keys
      ensures orders[o].totalSum == OrderTotal(orders[o].pizzas, after)
    {
      SumOverAgree(orders[o].pizzas, Prices(before), Prices(after));
    }
  }

  /** A pizza with no flavours is priced at least the base price, yet is created with price 0. */
  lemma EmptyPizzaPriceIsNotZero(size: Size, flavours: map<FlavourId, Flavour>)
    ensures PizzaPrice(size, {}, flavours) >= BasePrice > 0
    ensures !PricesCurrent(map[0 := Pizza(size, {}, 0)], flavours)
  {
    PizzaPriceAtLeastIngredients(size, {}, flavours);
    assert 0 in map[0 := Pizza(size, {}, 0)];
  }

  /** Changing a pizza's size alone leaves its stored price stale (the base pizza: 10 at L, 12 at XL). */
  lemma SizeChangeLeavesPriceStale()
    ensures PricesCurrent(map[0 := Pizza(L, {}, 10)], map[])
    ensures !PricesCurrent(map[0 := Pizza(XL, {}, 10)], map[])
  {
    assert PizzaPrice(L, {}, map[]) == 10;
    assert PizzaPrice(XL, {}, map[]) == 12;
    assert 0 in map[0 := Pizza(XL, {}, 10)];
  }

  /**
   * Deleting a pizza removes it from its orders without a signal: an INIT
   * order that held the only pizza, priced 15, keeps the total 15.
   */
  lemma DeletePizzaLeavesTotalStale()
    ensures InitTotalsCurrent(map[0 := Order(0, Init, {0}, 15)], map[0 := Pizza(L, {}, 15)])
    ensures !InitTotalsCurrent(map[0 := Order(0, Init, {}, 15)], map[])
  {
    OrderTotalSingle(map[0 := Pizza(L, {}, 15)], 0);
    assert 0 in map[0 := Order(0, Init, {}, 15)];
  }

  /**
   * A PAID order keeps its total frozen while its pizza's price moves on
   * (15 to 20); saving it back to INIT leaves that stale total in place.
   */
  lemma ReopeningLeavesTotalStale()
    ensures InitTotalsCurrent(map[0 := Order(0, Paid, {0}, 15)], map[0 := Pizza(L, {}, 20)])
    ensures !InitTotalsCurrent(map[0 := Order(0, Init, {0}, 15)], map[0 := Pizza(L, {}, 20)])
  {
    OrderTotalSingle(map[0 := Pizza(L, {}, 20)], 0);
    assert 0 in map[0 := Order(0, Init, {0}, 15)];
  }

  /** The store: one map per table plus the primary-key counters. */
  class Store {
    var flavours: map<FlavourId, Flavour>
    var pizzas: map<PizzaId, Pizza>
    var customers: map<CustomerId, Customer>
    var orders: map<OrderId, Order>
    var nextIds: NextIds

    /** Foreign keys resolve, keys are below their counters, and the column constraints hold. */
    ghost predicate Valid()
      reads this
    {
      && KeysBelow(flavours, nextIds.flavour)
      && KeysBelow(pizzas, nextIds.pizza)
      && KeysBelow(customers, nextIds.customer)
      && KeysBelow(orders, nextIds.order)
      && FlavoursExist(pizzas, flavours)
      && PizzasExist(orders, pizzas)
      && CustomersExist(orders, customers)
      && UniqueNames(flavours)
      && ValidPhones(customers)
    }

    constructor ()
      ensures Valid()
      ensures flavours == map[] && pizzas == map[] && customers == map[] && orders == map[]
    {
      flavours, pizzas, customers, orders := map[], map[], map[], map[];
      nextIds := NextIds(0, 0, 0, 0);
    }

    /** `Pizza.get_price`, summing the current added prices of the pizza's flavours. */
    method GetPrice(p: PizzaId) returns (price: nat)
      requires p in pizzas && pizzas[p].flavours <= flavours.Keys
      ensures price == PizzaPrice(pizzas[p].size, pizzas[p].flavours, flavours)
    {
      var flavoursPrice := SumOf(pizzas[p].flavours, AddedPrices(flavours));
      price := SizedPrice(pizzas[p].size, flavoursPrice + BasePrice);
    }

    /** `Order.get_total_sum`, summing the current stored prices of the order's pizzas. */
    method GetTotalSum(o: OrderId) returns (total: nat)
      requires o in orders && orders[o].pizzas <= pizzas.Keys
      ensures total == OrderTotal(orders[o].pizzas, pizzas)
    {
      total := SumOf(orders[o].pizzas, Prices(pizzas));
    }

    /**
     * The loop of receiver `update_order_total_price` (pizza `p` was saved):
     * every INIT order holding `p` gets its total recomputed from the stored
     * prices; PAID, SHIPPED and DELIVERED orders keep theirs.
     */
    method TotalsAfterPizzaSave(p: PizzaId) returns (updated: map<OrderId, Order>)
      requires p in pizzas && PizzasExist(orders, pizzas)
      ensures updated == Retotalled(orders, pizzas, {p})
    {
      ghost var target := Retotalled(orders, pizzas, {p});
      updated := orders;
      var todo := set o | o in orders && p in orders[o].pizzas;
      while todo != {}
        invariant updated.Keys == orders.Keys && todo <= orders.Keys
        invariant forall o :: o in updated ==> updated[o] == if o in todo then orders[o] else target[o]
        decreases todo
      {
        var o :| o in todo;
        if orders[o].status == Init {
          var total := GetTotalSum(o);
          assert target[o] == orders[o].(totalSum := total);
          updated := updated[o := orders[o].(totalSum := total)];
        } else {
          assert target[o] == orders[o];
        }
        todo := todo - {o};
      }
      assert updated.Keys == target.Keys;
    }

    /** Receiver `update_order_total_price`: the recomputed orders are saved. */
    method UpdateOrderTotalPrice(p: PizzaId)
      requires Valid() && p in pizzas
      modifies this
      ensures Valid()
      ensures flavours == old(flavours) && pizzas == old(pizzas) && customers == old(customers) && nextIds == old(nextIds)
      ensures orders == Retotalled(old(orders), pizzas, {p})
    {
      orders := TotalsAfterPizzaSave(p);
    }

    /**
     * Receiver `save_pizza_price` (the flavour set of `p` changed): the
     * price of `p` is recomputed, and saving it reaches `p`'s INIT orders.
     */
    method SavePizzaPrice(p: PizzaId)
      requires Valid() && p in pizzas
      modifies this
      ensures Valid()
      ensures flavours == old(flavours) && customers == old(customers) && nextIds == old(nextIds)
      ensures pizzas == old(pizzas)[p := Priced(old(pizzas)[p], flavours)]
      ensures orders == Retotalled(old(orders), pizzas, {p})
    {
      var price := GetPrice(p);
      pizzas := pizzas[p := pizzas[p].(price := price)];
      UpdateOrderTotalPrice(p);
    }

    /**
     * Receiver `update_pizza_price` (flavour `f` was saved): every pizza
     * using `f` gets its price recomputed and is saved, which reaches its
     * INIT orders; no other pizza changes.
     */
    method UpdatePizzaPrice(f: FlavourId)
      requires Valid()
      modifies this
      ensures Valid()
      ensures flavours == old(flavours) && customers == old(customers) && nextIds == old(nextIds)
      ensures pizzas == Repriced(old(pizzas), flavours, PizzasWith(old(pizzas), f))
      ensures orders == Retotalled(old(orders), pizzas, PizzasWith(old(pizzas), f))
    {
      ghost var affected := PizzasWith(old(pizzas), f);
      var todo := set p | p in pizzas && f in pizzas[p].flavours;
      RepricedNothing(pizzas, flavours);
      RetotalledUntouched(orders, pizzas, {});
      ghost var done: set<PizzaId> := {};
      while todo != {}
        invariant Valid()
        invariant flavours == old(flavours) && customers == old(customers) && nextIds == old(nextIds)
        invariant todo <= affected && done == affected - todo
        invariant pizzas == Repriced(old(pizzas), flavours, done)
        invariant orders == Retotalled(old(orders), pizzas, done)
        decreases todo
      {
        var p :| p in todo;
        ghost var current := pizzas;
        // the loop body is the same two statements as `save_pizza_price`
        SavePizzaPrice(p);
        RepricedStep(old(pizzas), flavours, done, p);
        RetotalledStep(old(orders), current, pizzas, done, p);
        todo := todo - {p};
        done := done + {p};
      }
      assert done == affected;
    }

    /**
     * Receiver `save_order_total_price` (the pizza set of `o` changed): the
     * total is recomputed whatever the order's status.
     */
    method SaveOrderTotalPrice(o: OrderId)
      requires Valid() && o in orders
      modifies this
      ensures Valid()
      ensures flavours == old(flavours) && pizzas == old(pizzas) && customers == old(customers) && nextIds == old(nextIds)
      ensures orders == old(orders)[o := old(orders)[o].(totalSum := OrderTotal(old(orders)[o].pizzas, pizzas))]
    {
      var total := GetTotalSum(o);
      orders := orders[o := orders[o].(totalSum := total)];
    }

    /** `Flavour.objects.create`, then the flavour's post-save receiver (no pizza uses it yet). */
    method CreateFlavour(flavour: Flavour) returns (id: FlavourId)
      requires Valid()
      requires forall g :: g in flavours ==> flavours[g].name != flavour.name
      modifies this
      ensures Valid()
      ensures pizzas == old(pizzas) && orders == old(orders) && customers == old(customers)
      ensures id == old(nextIds.flavour) && id !in old(flavours)
      ensures flavours == old(flavours)[id := flavour]
      ensures nextIds == old(nextIds).(flavour := id + 1)
      ensures old(PricesCurrent(pizzas, flavours)) ==> PricesCurrent(pizzas, flavours)
      ensures old(InitTotalsCurrent(orders, pizzas)) ==> InitTotalsCurrent(orders, pizzas)
    {
      id := nextIds.flavour;
      flavours := flavours[id := flavour];
      nextIds := nextIds.(flavour := id + 1);
      assert PizzasWith(pizzas, id) == {};
      RepricedNothing(pizzas, flavours);
      RetotalledUntouched(orders, pizzas, {});
      forall p | p in pizzas && old(PricesCurrent(pizzas, flavours))
        ensures pizzas[p].price == PizzaPrice(pizzas[p].size, pizzas[p].flavours, flavours)
      {
        PriceIgnoresOtherFlavours(pizzas[p], old(flavours), id, flavour);
      }
      UpdatePizzaPrice(id);
    }

    /** Saving flavour `f` with new column values, then its post-save receiver. */
    method SaveFlavour(f: FlavourId, flavour: Flavour)
      requires Valid() && f in flavours
      requires forall g :: g in flavours && g != f ==> flavours[g].name != flavour.name
      modifies this
      ensures Valid()
      ensures customers == old(customers) && nextIds == old(nextIds)
      ensures flavours == old(flavours)[f := flavour]
      ensures pizzas == Repriced(old(pizzas), flavours, PizzasWith(old(pizzas), f))
      ensures orders == Retotalled(old(orders), pizzas, PizzasWith(old(pizzas), f))
      ensures old(PricesCurrent(pizzas, flavours)) ==> PricesCurrent(pizzas, flavours)
      ensures old(InitTotalsCurrent(orders, pizzas)) ==> InitTotalsCurrent(orders, pizzas)
    {
      if PricesCurrent(pizzas, flavours) {
        FlavourSaveKeepsPricesCurrent(pizzas, flavours, f, flavour);
      }
      flavours := flavours[f := flavour];
      UpdatePizzaPrice(f);
      if old(InitTotalsCurrent(orders, pizzas)) {
        RetotalledKeepsTotalsCurrent(old(orders), old(pizzas), pizzas, PizzasWith(old(pizzas), f));
      }
    }

    /** `Pizza.objects.create`: no flavours, the default price 0, then the pizza's post-save receiver. */
    method CreatePizza(size: Size) returns (id: PizzaId)
      requires Valid()
      modifies this
      ensures Valid()
      ensures flavours == old(flavours) && orders == old(orders) && customers == old(customers)
      ensures id == old(nextIds.pizza) && id !in old(pizzas)
      ensures pizzas == old(pizzas)[id := Pizza(size, {}, 0)]
      ensures forall o :: o in orders ==> id !in orders[o].pizzas
      ensures nextIds == old(nextIds).(pizza := id + 1)
      ensures old(InitTotalsCurrent(orders, pizzas)) ==> InitTotalsCurrent(orders, pizzas)
    {
      id := nextIds.pizza;
      pizzas := pizzas[id := Pizza(size, {}, 0)];
      nextIds := nextIds.(pizza := id + 1);
      if old(InitTotalsCurrent(orders, pizzas)) {
        PricesKeptKeepTotalsCurrent(orders, old(pizzas), pizzas);
      }
      RetotalledUntouched(orders, pizzas, {id});
      UpdateOrderTotalPrice(id);
    }

    /**
     * Saving pizza `p` with a new size. Only the pizza's post-save receiver
     * runs: its INIT orders are recomputed, its own price is NOT.
     */
    method SavePizza(p: PizzaId, size: Size)
      requires Valid() && p in pizzas
      modifies this
      ensures Valid()
      ensures flavours == old(flavours) && customers == old(customers) && nextIds == old(nextIds)
      ensures pizzas == old(pizzas)[p := old(pizzas)[p].(size := size)]
      ensures orders == Retotalled(old(orders), pizzas, {p})
      ensures old(InitTotalsCurrent(orders, pizzas)) ==> InitTotalsCurrent(orders, pizzas)
    {
      pizzas := pizzas[p := pizzas[p].(size := size)];
      UpdateOrderTotalPrice(p);
      if old(InitTotalsCurrent(orders, pizzas)) {
        RetotalledKeepsTotalsCurrent(old(orders), old(pizzas), pizzas, {p});
      }
    }

    /**
     * The step every edit of a pizza's flavour set shares: the set becomes
     * `ids`, and the m2m receiver `save_pizza_price` runs.
     */
    method ChangePizzaFlavours(p: PizzaId, ids: set<FlavourId>)
      requires Valid() && p in pizzas && ids <= flavours.Keys
      modifies this
      ensures Valid()
      ensures flavours == old(flavours) && customers == old(customers) && nextIds == old(nextIds)
      ensures pizzas == old(pizzas)[p := Priced(old(pizzas)[p].(flavours := ids), flavours)]
      ensures orders == Retotalled(old(orders), pizzas, {p})
      ensures old(PricesCurrent(pizzas, flavours)) ==> PricesCurrent(pizzas, flavours)
      ensures old(InitTotalsCurrent(orders, pizzas)) ==> InitTotalsCurrent(orders, pizzas)
    {
      if PricesCurrent(pizzas, flavours) {
        FlavourSetChangeKeepsPricesCurrent(pizzas, flavours, p, ids);
      }
      ghost var start := pizzas;
      pizzas := pizzas[p := pizzas[p].(flavours := ids)];
      ghost var changed := pizzas[p];
      SavePizzaPrice(p);
      assert pizzas == start[p := Priced(changed, flavours)];
      if old(InitTotalsCurrent(orders, pizzas)) {
        RetotalledKeepsTotalsCurrent(old(orders), old(pizzas), pizzas, {p});
      }
    }

    /** `pizza.flavours.add(f)`, then `save_pizza_price`. */
    method AddPizzaFlavour(p: PizzaId, f: FlavourId)
      requires Valid() && p in pizzas && f in flavours
      modifies this
      ensures Valid()
      ensures flavours == old(flavours) && customers == old(customers) && nextIds == old(nextIds)
      ensures pizzas == old(pizzas)[p := Priced(old(pizzas)[p].(flavours := old(pizzas)[p].flavours + {f}), flavours)]
      ensures orders == Retotalled(old(orders), pizzas, {p})
      ensures old(PricesCurrent(pizzas, flavours)) ==> PricesCurrent(pizzas, flavours)
      ensures old(InitTotalsCurrent(orders, pizzas)) ==> InitTotalsCurrent(orders, pizzas)
    {
      ChangePizzaFlavours(p, pizzas[p].flavours + {f});
    }

    /** `pizza.flavours.remove(f)`, then `save_pizza_price`. */
    method RemovePizzaFlavour(p: PizzaId, f: FlavourId)
      requires Valid() && p in pizzas
      modifies this
      ensures Valid()
      ensures flavours == old(flavours) && customers == old(customers) && nextIds == old(nextIds)
      ensures pizzas == old(pizzas)[p := Priced(old(pizzas)[p].(flavours := old(pizzas)[p].flavours - {f}), flavours)]
      ensures orders == Retotalled(old(orders), pizzas, {p})
      ensures old(PricesCurrent(pizzas, flavours)) ==> PricesCurrent(pizzas, flavours)
      ensures old(InitTotalsCurrent(orders, pizzas)) ==> InitTotalsCurrent(orders, pizzas)
    {
      ChangePizzaFlavours(p, pizzas[p].flavours - {f});
    }

    /** `pizza.flavours.clear()`, then `save_pizza_price`. */
    method ClearPizzaFlavours(p: PizzaId)
      requires Valid() && p in pizzas
      modifies this
      ensures Valid()
      ensures flavours == old(flavours) && customers == old(customers) && nextIds == old(nextIds)
      ensures pizzas == old(pizzas)[p := Priced(old(pizzas)[p].(flavours := {}), flavours)]
      ensures orders == Retotalled(old(orders), pizzas, {p})
      ensures old(PricesCurrent(pizzas, flavours)) ==> PricesCurrent(pizzas, flavours)
      ensures old(InitTotalsCurrent(orders, pizzas)) ==> InitTotalsCurrent(orders, pizzas)
    {
      ChangePizzaFlavours(p, {});
    }

    /** `Customer.objects.create` with a phone number the validator accepted. */
    method CreateCustomer(customer: Customer) returns (id: CustomerId)
      requires Valid() && PhoneNumberValid(customer.phoneNumber)
      modifies this
      ensures Valid()
      ensures flavours == old(flavours) && pizzas == old(pizzas) && orders == old(orders)
      ensures id == old(nextIds.customer) && id !in old(customers)
      ensures customers == old(customers)[id := customer]
      ensures nextIds == old(nextIds).(customer := id + 1)
      ensures old(InitTotalsCurrent(orders, pizzas)) ==> InitTotalsCurrent(orders, pizzas)
    {
      id := nextIds.customer;
      customers := customers[id := customer];
      nextIds := nextIds.(customer := id + 1);
    }

    /** `Order.objects.create`: no pizzas and the default total 0 (no receiver listens to order saves). */
    method CreateOrder(customer: CustomerId, status: Status) returns (id: OrderId)
      requires Valid() && customer in customers
      modifies this
      ensures Valid()
      ensures flavours == old(flavours) && pizzas == old(pizzas) && customers == old(customers)
      ensures id == old(nextIds.order) && id !in old(orders)
      ensures orders == old(orders)[id := Order(customer, status, {}, 0)]
      ensures nextIds == old(nextIds).(order := id + 1)
      ensures old(InitTotalsCurrent(orders, pizzas)) ==> InitTotalsCurrent(orders, pizzas)
    {
      id := nextIds.order;
      orders := orders[id := Order(customer, status, {}, 0)];
      nextIds := nextIds.(order := id + 1);
    }

    /** Saving order `o` with a new customer and status; its total is left as stored. */
    method SaveOrder(o: OrderId, customer: CustomerId, status: Status)
      requires Valid() && o in orders && customer in customers
      modifies this
      ensures Valid()
      ensures flavours == old(flavours) && pizzas == old(pizzas) && customers == old(customers) && nextIds == old(nextIds)
      ensures orders == old(orders)[o := old(orders)[o].(customer := customer, status := status)]
      ensures old(InitTotalsCurrent(orders, pizzas)) && (old(orders)[o].status == Init || status != Init) ==>
              InitTotalsCurrent(orders, pizzas)
    {
      orders := orders[o := orders[o].(customer := customer, status := status)];
    }

    /**
     * The step every edit of an order's pizza set shares: the set becomes
     * `ids`, and the m2m receiver `save_order_total_price` runs.
     */
    method ChangeOrderPizzas(o: OrderId, ids: set<PizzaId>)
      requires Valid() && o in orders && ids <= pizzas.Keys
      modifies this
      ensures Valid()
      ensures flavours == old(flavours) && pizzas == old(pizzas) && customers == old(customers) && nextIds == old(nextIds)
      ensures orders == old(orders)[o := old(orders)[o].(pizzas := ids, totalSum := OrderTotal(ids, pizzas))]
      ensures old(InitTotalsCurrent(orders, pizzas)) ==> InitTotalsCurrent(orders, pizzas)
    {
      ghost var start := orders;
      orders := orders[o := orders[o].(pizzas := ids)];
      SaveOrderTotalPrice(o);
      assert orders == start[o := start[o].(pizzas := ids, totalSum := OrderTotal(ids, pizzas))];
      if old(InitTotalsCurrent(orders, pizzas)) {
        PizzaSetChangeKeepsTotalsCurrent(start, pizzas, o, ids);
      }
    }

    /** `order.pizzas.add(p)`, then `save_order_total_price`. */
    method AddOrderPizza(o: OrderId, p: PizzaId)
      requires Valid() && o in orders && p in pizzas
      modifies this
      ensures Valid()
      ensures flavours == old(flavours) && pizzas == old(pizzas) && customers == old(customers) && nextIds == old(nextIds)
      ensures orders == old(orders)[o := old(orders)[o].(pizzas := old(orders)[o].pizzas + {p},
                                                        totalSum := OrderTotal(old(orders)[o].pizzas + {p}, pizzas))]
      ensures old(InitTotalsCurrent(orders, pizzas)) ==> InitTotalsCurrent(orders, pizzas)
    {
      ChangeOrderPizzas(o, orders[o].pizzas + {p});
    }

    /** `order.pizzas.remove(p)`, then `save_order_total_price`. */
    method RemoveOrderPizza(o: OrderId, p: PizzaId)
      requires Valid() && o in orders
      modifies this
      ensures Valid()
      ensures flavours == old(flavours) && pizzas == old(pizzas) && customers == old(customers) && nextIds == old(nextIds)
      ensures orders == old(orders)[o := old(orders)[o].(pizzas := old(orders)[o].pizzas - {p},
                                                        totalSum := OrderTotal(old(orders)[o].pizzas - {p}, pizzas))]
      ensures old(InitTotalsCurrent(orders, pizzas)) ==> InitTotalsCurrent(orders, pizzas)
    {
      ChangeOrderPizzas(o, orders[o].pizzas - {p});
    }

    /** `order.pizzas.clear()`, then `save_order_total_price`. */
    method ClearOrderPizzas(o: OrderId)
      requires Valid() && o in orders
      modifies this
      ensures Valid()
      ensures flavours == old(flavours) && pizzas == old(pizzas) && customers == old(customers) && nextIds == old(nextIds)
      ensures orders == old(orders)[o := old(orders)[o].(pizzas := {}, totalSum := 0)]
      ensures old(InitTotalsCurrent(orders, pizzas)) ==> InitTotalsCurrent(orders, pizzas)
    {
      ChangeOrderPizzas(o, {});
    }

    /**
     * `order.pizzas.set(ids)`. It walks the list against the linked ids: the
     * first listing of a linked id keeps it, and every other listing (an id
     * not linked yet, or a repeat of one already met) goes to `add`. The
     * linked ids never met go to `remove`. Each of those calls fires the m2m
     * receiver when its argument is non-empty, and `add` does so even for ids
     * already linked. So the total is kept exactly when the list names the
     * current set with no repeat; otherwise it is recomputed from the new set.
     */
    method SetOrderPizzas(o: OrderId, ids: seq<PizzaId>)
      requires Valid() && o in orders && ToSet(ids) <= pizzas.Keys
      modifies this
      ensures Valid()
      ensures flavours == old(flavours) && pizzas == old(pizzas) && customers == old(customers) && nextIds == old(nextIds)
      ensures orders == old(orders)[o := if ToSet(ids) == old(orders)[o].pizzas && NoRepeats(ids) then old(orders)[o]
                                         else old(orders)[o].(pizzas := ToSet(ids), totalSum := OrderTotal(ToSet(ids), pizzas))]
      ensures old(InitTotalsCurrent(orders, pizzas)) ==> InitTotalsCurrent(orders, pizzas)
    {
      if !(ToSet(ids) == orders[o].pizzas && NoRepeats(ids)) {
        ChangeOrderPizzas(o, ToSet(ids));
      }
    }

    /** Deleting order `o`; its pizza links go with it. */
    method DeleteOrder(o: OrderId)
      requires Valid() && o in orders
      modifies this
      ensures Valid()
      ensures flavours == old(flavours) && pizzas == old(pizzas) && customers == old(customers) && nextIds == old(nextIds)
      ensures orders == old(orders) - {o}
      ensures old(InitTotalsCurrent(orders, pizzas)) ==> InitTotalsCurrent(orders, pizzas)
    {
      orders := orders - {o};
    }

    /** Deleting customer `c` cascades to every order of `c` (`on_delete=CASCADE`). */
    method DeleteCustomer(c: CustomerId)
      requires Valid() && c in customers
      modifies this
      ensures Valid()
      ensures flavours == old(flavours) && pizzas == old(pizzas) && nextIds == old(nextIds)
      ensures customers == old(customers) - {c}
      ensures forall o :: o in orders <==> o in old(orders) && old(orders)[o].customer != c
      ensures forall o :: o in orders ==> orders[o] == old(orders)[o]
      ensures old(InitTotalsCurrent(orders, pizzas)) ==> InitTotalsCurrent(orders, pizzas)
    {
      customers := customers - {c};
      orders := map o | o in orders && orders[o].customer != c :: orders[o];
    }

    /**
     * Deleting pizza `p` removes its order links without any m2m signal: the
     * orders that held it keep their stored totals.
     */
    method DeletePizza(p: PizzaId)
      requires Valid() && p in pizzas
      modifies this
      ensures Valid()
      ensures flavours == old(flavours) && customers == old(customers) && nextIds == old(nextIds)
      ensures pizzas == old(pizzas) - {p}
      ensures orders == map o | o in old(orders) :: old(orders)[o].(pizzas := old(orders)[o].pizzas - {p})
    {
      pizzas := pizzas - {p};
      orders := map o | o in orders :: orders[o].(pizzas := orders[o].pizzas - {p});
    }

    /**
     * Deleting flavour `f` removes its pizza links without any m2m signal:
     * the pizzas that used it keep their stored prices.
     */
    method DeleteFlavour(f: FlavourId)
      requires Valid() && f in flavours
      modifies this
      ensures Valid()
      ensures orders == old(orders) && customers == old(customers) && nextIds == old(nextIds)
      ensures flavours == old(flavours) - {f}
      ensures pizzas == map p | p in old(pizzas) :: old(pizzas)[p].(flavours := old(pizzas)[p].flavours - {f})
      ensures Prices(pizzas) == Prices(old(pizzas))
      ensures old(InitTotalsCurrent(orders, pizzas)) ==> InitTotalsCurrent(orders, pizzas)
    {
      ghost var before := pizzas;
      flavours := flavours - {f};
      pizzas := map p | p in pizzas :: pizzas[p].(flavours := pizzas[p].flavours - {f});
      assert Prices(pizzas) == Prices(before);
      if InitTotalsCurrent(orders, before) {
        PricesKeptKeepTotalsCurrent(orders, before, pizzas);
      }
    }
  }
}
