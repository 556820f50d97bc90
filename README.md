# Pizza store: reactive prices and the order lifecycle

This project is a Dafny model of the business logic of a small Django REST
pizza-ordering service. The service stores four things: flavours, pizzas,
customers and orders. Two of its columns are derived and never written by a
client:

- a pizza's `price` is `(sum of its flavours' added_price + 10) * coefficient(size)`,
  where the coefficient is 1 for L, 1.25 for XL and 1.5 for XXL;
- an order's `total_sum` is the sum of its pizzas' stored prices.

Four signal receivers keep those columns up to date:

- when a pizza's flavour set changes, that pizza is re-priced (`save_pizza_price`);
- when a flavour is saved, every pizza using it is re-priced (`update_pizza_price`);
- when an order's pizza set changes, its total is recomputed (`save_order_total_price`);
- when a pizza is saved, the total of every INIT order holding it is recomputed
  (`update_order_total_price`). PAID, SHIPPED and DELIVERED totals stay frozen.

The serializers add three things:

- the create paths of orders and pizzas, which create the row and then attach
  the related rows one `add` at a time;
- an update guard: a SHIPPED or DELIVERED order can no longer be changed;
- the derived `pizza_count`.

The order view set does two more things. Its list filter combines
`customer_name` and `status` with OR, and the detail routes look the row up
in that filtered list. Its serializer choice sends every PATCH through the
guarded serializer.

Modules, in dependency order:

- `Wrappers` (wrappers.dfy): `Option`, for an absent request field or query parameter.
- `Sums` (sums.dfy): sums of weights over sets of row ids.
  - `SumOver` is the specification.
  - `SumOf` is the loop that computes it.
- `Pricing` (pricing.dfy): sizes and the size coefficient as exact fractions, with the floor the integer column applies.
- `Phone` (phone.dfy): the phone-number validator `^\+?1?\d{9,15}$` plus `max_length=17`.
- `Models` (models.dfy): the entities, the specification functions of the derived columns, and class `Store`.
  - `Store` holds one map per table.
  - Its methods are the ORM writes, each followed by the receivers it triggers, called explicitly.
  - Each receiver is a method whose new state is a function of the old one: `Repriced` for pizzas and `Retotalled` for orders. Lemmas then prove what those functions keep.
- `Serializers` (serializers.dfy): request validation, `PizzaCreate`, `OrderCreate` and the guarded `OrderPartialUpdate`, plus pizza count.
- `Views` (views.dfy): the list filter, the HTTP methods served, the serializer choice, and the PATCH and DELETE requests of one order, which look the row up in the filtered list.

Two invariants describe when the derived columns are "current":

- `PricesCurrent`: every stored price equals the pricing function of the pizza's flavours.
- `InitTotalsCurrent`: every INIT order's total equals the sum of its pizzas' stored prices.

Each operation states whether it keeps them. The code does not always keep
them. The model follows the code, so the operations that break them are
stated as such (see "Code and description differ" below).

## Model

| member | source | states |
|---|---|---|
| Sums.SumOverRemove | task1_app/api_v1/models.py:42 | a sum over a set can be split at any member: the order of summation does not matter |
| Sums.SumOverAgree | task1_app/api_v1/models.py:98 | a sum depends only on the weights of the set's own members |
| Sums.SumOverSingleton | task1_app/api_v1/models.py:98 | the sum over one row is that row's weight |
| Sums.SumOverBounds | task1_app/api_v1/models.py:42 | every member's weight is at most the sum |
| Sums.SumOf | task1_app/api_v1/models.py:42 | the loop computing `sum(values_list(...))` returns exactly the specified sum over the set |
| Pricing.SizedPrice | task1_app/api_v1/models.py:27-31 | the stored value is the floor of amount times coefficient: `price*den <= amount*num < (price+1)*den` |
| Pricing.SizedPriceOrdered | task1_app/api_v1/models.py:27-31 | L leaves the amount unchanged, and L <= XL <= XXL for every amount |
| Pricing.SizedPriceMonotonic | task1_app/api_v1/models.py:43 | a larger amount never gives a smaller price |
| Phone.OneThenDigitsCharacterized | task1_app/api_v1/models.py:67 | `1?\d{9,15}` matches exactly the all-digit strings of length 9..15, or those of length 10..16 starting with `1` |
| Phone.PatternCharacterized | task1_app/api_v1/models.py:67 | the pattern matches iff, after an optional `+`, the rest is all digits with 9..15 of them, or a leading `1` and 10..16 of them |
| Phone.PatternWithinMaxLength | task1_app/api_v1/models.py:67-69 | a matching string never exceeds the column's max_length of 17 |
| Phone.FixturePhoneAccepted | task1_app/tests/factories.py:8 | the fixture number `+11111111111111` is accepted |
| Phone.ShortOrNonDigitRejected | task1_app/api_v1/models.py:67-68 | eight digits, or digits followed by a letter, are refused |
| Phone.TrailingNewlineAccepted | task1_app/api_v1/models.py:67 | Python's `$` lets a single trailing newline through the validator, though the pattern itself does not match it |
| Models.Repriced | task1_app/api_v1/models.py:57-62 | the pizza table after a re-pricing has the same rows, sizes and flavour sets |
| Models.Retotalled | task1_app/api_v1/models.py:111-118 | the order table after a re-totalling has the same rows, customers, statuses and pizza sets |
| Models.RepricedStep | task1_app/api_v1/models.py:60-62 | re-pricing one more pizza of the loop extends the set of re-priced pizzas by it |
| Models.RetotalledStep | task1_app/api_v1/models.py:111-118 | saving one more re-priced pizza extends the set whose INIT orders are up to date; orders not holding it do not see its price |
| Models.RetotalledUntouched | task1_app/api_v1/models.py:114 | saving pizzas that no order holds changes no order |
| Models.RepricedNothing | task1_app/api_v1/models.py:60 | re-pricing no pizza changes nothing |
| Models.RetotalledKeepsTotalsCurrent | task1_app/api_v1/models.py:111-118 | if only the touched pizzas changed price, recomputing the INIT orders holding them makes every INIT total current again |
| Models.PriceIgnoresOtherFlavours | task1_app/api_v1/models.py:40-43 | a pizza's price does not depend on flavours it does not use |
| Models.PizzaPriceAtLeastIngredients | task1_app/api_v1/models.py:40-43 | a price is at least the base price plus the flavours' sum, so at least any one flavour plus 10 |
| Models.PriceExamples | task1_app/tests/test_orders.py:113-133 | one flavour at 100 gives 110 (L), 137 (XL) and 165 (XXL); one at 5 gives 15 |
| Models.OrderTotalSingle | task1_app/tests/test_orders.py:70-79 | an order of one pizza totals that pizza's price |
| Models.FlavourSaveKeepsPricesCurrent | task1_app/api_v1/models.py:57-62 | after a flavour is saved and its pizzas re-priced, every stored price is current |
| Models.FlavourSetChangeKeepsPricesCurrent | task1_app/api_v1/models.py:50-54 | re-pricing the pizza whose flavour set changed keeps every stored price current |
| Models.SaveOrderKeepsTotalsCurrent | task1_app/api_v1/serializers.py:44 | saving an order keeps INIT totals current unless it moves a non-INIT order back to INIT |
| Models.PizzaSetChangeKeepsTotalsCurrent | task1_app/api_v1/models.py:104-108 | recomputing a total after the order's pizza set changed keeps INIT totals current |
| Models.PricesKeptKeepTotalsCurrent | task1_app/api_v1/models.py:111-118 | INIT totals stay current when no existing pizza changes its stored price |
| Models.EmptyPizzaPriceIsNotZero | task1_app/api_v1/models.py:38 | a pizza priced from no flavours costs at least 10, so the default 0 of a flavourless pizza is not current |
| Models.SizeChangeLeavesPriceStale | task1_app/api_v1/models.py:111-118 | a size change alone leaves the stored price stale: the base pizza is 10 at L but still 10, not 12, at XL |
| Models.DeletePizzaLeavesTotalStale | task1_app/api_v1/models.py:93 | deleting an order's only pizza, priced 15, leaves its INIT total at 15 |
| Models.ReopeningLeavesTotalStale | task1_app/api_v1/models.py:115-116 | a PAID order keeps its frozen total when its pizza's price changes; an update back to INIT makes that total stale |
| Models.Store.constructor | task1_app/api_v1/models.py:7-95 | the empty store is valid |
| Models.Store.GetPrice | task1_app/api_v1/models.py:40-43 | `get_price` returns the pricing function of the pizza's current flavours and size |
| Models.Store.GetTotalSum | task1_app/api_v1/models.py:97-98 | `get_total_sum` returns the sum of the stored prices of the order's pizzas |
| Models.Store.TotalsAfterPizzaSave | task1_app/api_v1/models.py:114-118 | the receiver's loop yields exactly `Retotalled(orders, pizzas, {p})`: INIT orders holding `p` are recomputed, all others are unchanged |
| Models.Store.UpdateOrderTotalPrice | task1_app/api_v1/models.py:111-118 | after a pizza save, only the orders change, to `Retotalled`; stored invariants are kept |
| Models.Store.SavePizzaPrice | task1_app/api_v1/models.py:50-54 | the pizza's price becomes the pricing function of its flavours, its INIT orders are recomputed, and nothing else changes |
| Models.Store.UpdatePizzaPrice | task1_app/api_v1/models.py:57-62 | every pizza using the flavour is re-priced, other pizzas are unchanged, and the INIT orders of the re-priced pizzas are recomputed |
| Models.Store.SaveOrderTotalPrice | task1_app/api_v1/models.py:104-108 | the order's total becomes the sum over its pizzas whatever its status, and nothing else changes |
| Models.Store.CreateFlavour | task1_app/api_v1/models.py:7-9 | a fresh id gets the flavour; no pizza or order changes; both invariants are kept |
| Models.Store.SaveFlavour | task1_app/api_v1/models.py:57-62 | the flavour is written, its pizzas are re-priced and their INIT orders recomputed; both invariants are kept |
| Models.Store.CreatePizza | task1_app/api_v1/models.py:34-38 | a fresh pizza with no flavours and price 0; no order changes; INIT totals stay current |
| Models.Store.SavePizza | task1_app/api_v1/models.py:111-118 | a size change saves the pizza with its price unchanged and recomputes its INIT orders; INIT totals stay current |
| Models.Store.ChangePizzaFlavours | task1_app/api_v1/models.py:50-54 | after any edit of a pizza's flavour set, its price is the pricing function of the new set; both invariants are kept |
| Models.Store.AddPizzaFlavour | task1_app/api_v1/models.py:50-54 | after `add`, the price is the pricing function of the set plus the flavour |
| Models.Store.RemovePizzaFlavour | task1_app/api_v1/models.py:50-54 | after `remove`, the price is the pricing function of the set minus the flavour |
| Models.Store.ClearPizzaFlavours | task1_app/api_v1/models.py:50-54 | after `clear`, the price is the pricing function of no flavours |
| Models.Store.CreateCustomer | task1_app/api_v1/models.py:65-70 | a fresh id gets a customer whose phone number passed the validator |
| Models.Store.CreateOrder | task1_app/api_v1/models.py:90-95 | a fresh order with no pizzas and total 0; INIT totals stay current |
| Models.Store.SaveOrder | task1_app/api_v1/models.py:90-92 | customer and status are written and the total is left as stored; INIT totals stay current unless the order is reopened |
| Models.Store.ChangeOrderPizzas | task1_app/api_v1/models.py:104-108 | after any edit of an order's pizza set, its total is the sum over the new set |
| Models.Store.AddOrderPizza | task1_app/api_v1/models.py:104-108 | after `add`, the total is the sum over the set plus the pizza, whatever the status |
| Models.Store.RemoveOrderPizza | task1_app/api_v1/models.py:104-108 | after `remove`, the total is the sum over the set minus the pizza |
| Models.Store.ClearOrderPizzas | task1_app/api_v1/models.py:104-108 | after `clear`, the set is empty and the total is 0 |
| Models.Store.SetOrderPizzas | task1_app/api_v1/models.py:104-108 | `set` of a list naming the current set with no repeat changes nothing; any other list, including one repeating a linked id, leaves exactly the listed set with the total over it, not the union, whatever the status |
| Models.Store.DeleteOrder | task1_app/api_v1/views.py:9-10 | only that order is removed |
| Models.Store.DeleteCustomer | task1_app/api_v1/models.py:91 | the customer goes, every order of that customer goes, and every other order is kept unchanged |
| Models.Store.DeletePizza | task1_app/api_v1/models.py:93-95 | the pizza leaves every order's set, and the stored totals are kept |
| Models.Store.DeleteFlavour | task1_app/api_v1/models.py:36-38 | the flavour leaves every pizza's set, stored prices are unchanged, and INIT totals stay current |
| Serializers.ToSetSnoc | task1_app/api_v1/serializers.py:35-37 | the pizzas linked after `i+1` adds are those after `i` plus the next one |
| Serializers.AllInToSet | task1_app/api_v1/serializers.py:24 | a key list is accepted iff the set it names holds only existing rows |
| Serializers.ToSetCardinality | task1_app/api_v1/serializers.py:35-37 | a list names at most as many rows as its length, and exactly that many iff no id repeats |
| Serializers.PizzaCount | task1_app/api_v1/serializers.py:16-18 | `get_pizza_count`; what it means for an order built from a list is stated by `Serializers.PizzaCountOfIds` |
| Serializers.PizzaCountOfIds | task1_app/api_v1/serializers.py:16-18 | `pizza_count` of an order created from a list is at most the list's length, with equality iff no id repeats |
| Serializers.AddFlavours | task1_app/api_v1/serializers.py:76-78 | after the loop, the new pizza holds exactly the listed flavours, each looked up by (name, added price), at their price (0 for none); nothing else changes |
| Serializers.PizzaCreate | task1_app/api_v1/serializers.py:64-79 | accepted iff every flavour exists; then a fresh pizza of the given size (L by default) with exactly those flavours and their price; a refusal changes nothing; INIT totals are kept, and prices stay current when the list is non-empty |
| Serializers.PizzaPartialUpdate | task1_app/api_v1/serializers.py:54-61 | only the size can change, the price is read-only and not recomputed, and INIT orders holding the pizza are recomputed |
| Serializers.CustomerCreate | task1_app/api_v1/models.py:65-70 | a customer is created iff name, phone (regex and max_length) and address pass, none holding a NUL character; a refusal changes nothing |
| Serializers.AddPizzas | task1_app/api_v1/serializers.py:35-37 | after the loop, the new order holds exactly the listed pizzas, with the total over them |
| Serializers.OrderCreate | task1_app/api_v1/serializers.py:32-38 | accepted iff the customer and every pizza exist; then a fresh order with the given customer, status (INIT by default), exactly the listed pizzas and their total; `total_sum` is not an input |
| Serializers.Patched | task1_app/api_v1/serializers.py:44 | the order `ModelSerializer.update` leaves behind; its meaning is stated by `Serializers.PatchedFields` and `Serializers.RepeatedIdRecomputesTotal` |
| Serializers.PatchedFields | task1_app/api_v1/serializers.py:44 | a patched order carries the given fields and keeps the others; a pizza list gives exactly its set; the total is the sum over that set for a changed set, for a list repeating an id, or for an INIT order whose total was current; a list naming the current set once each keeps the stored total, even a stale one |
| Serializers.RepeatedIdRecomputesTotal | task1_app/api_v1/serializers.py:44 | `[1, 1]` recomputes a PAID order's stale total of 15 to 20, while `[1]` keeps it frozen |
| Serializers.OrderPartialUpdate | task1_app/api_v1/serializers.py:40-44 | unknown order: not found; bad reference: invalid; SHIPPED or DELIVERED: refused whatever the body; a refusal changes nothing; the update succeeds exactly for an existing, valid, unfrozen case, and the order becomes `Patched` |
| Serializers.ShipThenPatch | task1_app/api_v1/serializers.py:41-44 | the guard reads only the old status: a valid PATCH to SHIPPED of an INIT or PAID order succeeds, and the next PATCH is refused and leaves the order as shipped |
| Views.OrderQuery | task1_app/api_v1/views.py:19-26 | the result is a subset of all orders, and is all orders when neither parameter is given or both are empty |
| Views.FilterIsUnion | task1_app/api_v1/views.py:25 | with both parameters present, the result is the union of the customer-name filter and the status filter |
| Views.AbsentNameMatchesNothing | task1_app/api_v1/views.py:21-25 | with no `customer_name`, the status filter alone decides |
| Views.AbsentStatusMatchesNothing | task1_app/api_v1/views.py:21-25 | with no `status`, the customer-name filter alone decides |
| Views.UnknownStatusListsNothing | task1_app/api_v1/views.py:22-25 | a status value outside the four choices matches no order |
| Views.ActionOf | task1_app/api_v1/views.py:10 | PUT reaches no action, so `update` is never reached; PATCH on one row is exactly `partial_update` |
| Views.OrderSerializerFor | task1_app/api_v1/views.py:14-17 | `OrderViewSet.get_serializer_class`; which requests reach each serializer is stated by `Views.OrderWriteSerializerRequests` |
| Views.EveryOrderWriteIsGuarded | task1_app/api_v1/views.py:10-17 | every request that reaches `update` or `partial_update` is a PATCH of one row through `OrderCreateSerializer`; `update` itself would use the read serializer |
| Views.OrderWriteSerializerRequests | task1_app/api_v1/views.py:10-17 | the order write serializer serves exactly a POST to the collection and a PATCH of one row |
| Views.PizzaSerializerFor | task1_app/api_v1/views.py:42-45 | `PizzaViewSet.get_serializer_class`; which requests reach each serializer is stated by `Views.PizzaRequestSerializer` |
| Views.PizzaRequestSerializer | task1_app/api_v1/views.py:37-45 | only a POST to the collection uses the pizza create serializer; a PATCH of one pizza reaches `partial_update` through the read serializer, so only the size is writable |
| Views.OrderPatchRequest | task1_app/api_v1/views.py:19-26 | the detail lookup goes through the filtered list: an order the query string filters out is not found; otherwise the PATCH succeeds iff the body is valid and the order is not SHIPPED or DELIVERED, and then writes `Patched` |
| Views.OrderDeleteRequest | task1_app/api_v1/views.py:19-26 | a DELETE removes the order iff the filtered lookup finds it, whatever its status, and otherwise is not found and changes nothing |
| Views.FilteredDetailLookup | task1_app/api_v1/views.py:23-25 | `?status=paid` hides an INIT order from the detail lookup, and adding its customer's name brings it back |

## Code and description differ

The model follows the code in each of these cases:

- A pizza created with no flavours keeps the default price 0. No `add` runs, so no receiver prices it (`Models.EmptyPizzaPriceIsNotZero`).
- Saving a pizza does not re-price it. A PATCH of its size leaves its price as it was, while its INIT orders are recomputed from that stale price (`Models.Store.SavePizza`, `Models.SizeChangeLeavesPriceStale`).
- Deleting a pizza or a flavour removes the link rows without an m2m signal. Totals and prices are not recomputed (`Models.Store.DeletePizza`, `Models.DeletePizzaLeavesTotalStale`).
- An update from PAID back to INIT is allowed and keeps the frozen total (`Models.ReopeningLeavesTotalStale`).
- `order.pizzas.set(ids)` fires the m2m receiver only when it removes rows or has ids to `add`, and a repeat of an id already linked counts as one to add. A list naming the current set once each recomputes nothing, even when prices have changed since; a list repeating an id recomputes the total of a PAID order (`Models.Store.SetOrderPizzas`, `Serializers.RepeatedIdRecomputesTotal`).
- The immutability guard sits in the serializer's `update` only. DELETE of a SHIPPED or DELIVERED order removes it (`Views.OrderDeleteRequest`). DELETE of a customer removes its frozen orders too (`Models.Store.DeleteCustomer`), and DELETE of a pizza removes it from frozen orders' pizza sets (`Models.Store.DeletePizza`).
- Request validation runs before the serializer's `update`. A body naming a missing pizza or customer is refused as invalid, even for a SHIPPED order.

## Left out

- ORM, database, querysets and `prefetch_related`: each table is a map from primary key to row, and a relation is a set of keys.
- Signal dispatch: the `pre_*`/`post_*` phases of `m2m_changed` are not modelled, only the state after the post phase. The pre phase's intermediate save yields the same final state.
- Reverse-side many-to-many edits (`flavour.pizza_set.add`), which hand the receiver the wrong instance type.
- Floating point: the coefficients 1.25 and 1.5 are exact fractions with floor, which agrees with `int()` on non-negative products.
- `get_or_create` creating rows: the ids were validated as existing, so it is a lookup.
- `Phone.PhoneRegexMatches`: `\d` is ASCII digits only; Python also accepts other Unicode decimal digits.
- Serializers.CustomerCreate: its iff is stated over `CustomerAccepted` on the raw fields; DRF's whitespace trimming before validation is not modelled, which also drops a trailing newline before the regex.
- The customer and flavour view sets beyond `CustomerSerializer.create`: PATCH of customers and flavours, `FlavourSerializer` validation and its uniqueness error. The store's flavour methods require a unique name instead.
- HTTP routing beyond the order view set's methods (urls.py), JSON nesting depth, swagger, admin and `__str__`.
- Integer column bounds: `PositiveIntegerField` is modelled as an unbounded `nat`.
- Concurrency and transactions: the model is single-threaded.
