/** What each cart operation of the provider does to the cart and which error
    it reports, as functions of the cart before the call and of the answers of
    the remote stock and product lookups; and the properties those operations
    keep, one call at a time and over any sequence of calls. */
module CartOps {
  import opened CartItems

  /** The message the provider shows, if any: Ok shows none; StockError is
      "requested quantity out of stock"; AddError, RemoveError and
      UpdateError are the generic failure messages of the three operations. */
  datatype Outcome = Ok | StockError | AddError | RemoveError | UpdateError

  /** The outcome of one call together with the cart it leaves behind. */
  datatype Step<P> = Step(outcome: Outcome, cart: seq<Item<P>>)

  /** Add one unit of `id`. `stock` is the answer of the stock lookup,
      `product` that of the product lookup (only asked when `id` is absent). */
  function Add<P>(cart: seq<Item<P>>, id: int, stock: Option<int>, product: Option<Product<P>>): (r: Step<P>)
    ensures r.outcome in {Ok, StockError, AddError}
    ensures r.outcome != Ok ==> r.cart == cart
    ensures stock.None? ==> r.outcome == AddError
    ensures r.outcome == Ok ==> |r.cart| == |cart| + (if Contains(cart, id) then 0 else 1)
    ensures r.outcome == Ok ==> forall k :: 0 <= k < |cart| ==> r.cart[k].id == cart[k].id
  {
    var i := FindIndex(cart, id);
    match stock
    case None => Step(AddError, cart)
    case Some(available) =>
      var quantity := (if 0 <= i then cart[i].amount else 0) + 1;
      if quantity > available then Step(StockError, cart)
      else if 0 <= i then Step(Ok, cart[i := cart[i].(amount := quantity)])
      else
        match product
        case None => Step(AddError, cart)
        case Some(p) => Step(Ok, cart + [Item(p.id, 1, p.details)])
  }

  /** Remove `id`, as the provider is written: the position is looked up,
      but the list that is committed is the unchanged copy. */
  function Remove<P>(cart: seq<Item<P>>, id: int): (r: Step<P>)
    ensures r.outcome == Ok <==> Contains(cart, id)
    ensures r.outcome == RemoveError <==> !Contains(cart, id)
    ensures r.cart == cart
  {
    if 0 <= FindIndex(cart, id) then Step(Ok, cart) else Step(RemoveError, cart)
  }

  /** Set the amount of `id` to `amount`. `stock` is the answer of the stock
      lookup, which is only asked when `amount` is positive. */
  function Update<P>(cart: seq<Item<P>>, id: int, amount: int, stock: Option<int>): (r: Step<P>)
    ensures r.outcome in {Ok, StockError, UpdateError}
    ensures r.outcome != Ok ==> r.cart == cart
    ensures amount <= 0 ==> r == Step(Ok, cart)
    ensures 0 < amount && stock.None? ==> r.outcome == UpdateError
    ensures 0 < amount && stock.Some? && amount <= stock.value ==> (r.outcome == Ok <==> Contains(cart, id))
    ensures |r.cart| == |cart|
    ensures forall k :: 0 <= k < |cart| ==> r.cart[k].id == cart[k].id && r.cart[k].details == cart[k].details
  {
    if amount <= 0 then Step(Ok, cart)
    else
      match stock
      case None => Step(UpdateError, cart)
      case Some(available) =>
        if amount > available then Step(StockError, cart)
        else
          var i := FindIndex(cart, id);
          if 0 <= i then Step(Ok, cart[i := cart[i].(amount := amount)])
          else Step(UpdateError, cart)
  }

  // ---------------------------------------------------------------------------
  // addProduct

  /** Adding an id that is already in the cart: with stock for one more unit,
      that line's amount becomes one more and nothing else changes (no new
      line, same order); otherwise the cart is unchanged and the error says
      why. */
  lemma AddPresent<P>(cart: seq<Item<P>>, id: int, k: int, stock: Option<int>, product: Option<Product<P>>)
    requires UniqueIds(cart)
    requires 0 <= k < |cart| && cart[k].id == id
    ensures var r := Add(cart, id, stock, product);
      match stock
      case None => r == Step(AddError, cart)
      case Some(available) =>
        if cart[k].amount + 1 > available then r == Step(StockError, cart)
        else
          && r.outcome == Ok
          && |r.cart| == |cart|
          && r.cart[k] == Item(id, cart[k].amount + 1, cart[k].details)
          && forall j :: 0 <= j < |cart| && j != k ==> r.cart[j] == cart[j]
  {
  }

  /** Adding an id that is not in the cart: with stock for one unit and the
      product fetched, the fetched record is appended with amount 1 behind
      the unchanged previous lines; every failure leaves the cart as it was. */
  lemma AddAbsent<P>(cart: seq<Item<P>>, id: int, stock: Option<int>, product: Option<Product<P>>)
    requires !Contains(cart, id)
    ensures var r := Add(cart, id, stock, product);
      if stock.None? then r == Step(AddError, cart)
      else if stock.value < 1 then r == Step(StockError, cart)
      else if product.None? then r == Step(AddError, cart)
      else
        && r.outcome == Ok
        && r.cart[..|cart|] == cart
        && r.cart[|cart|..] == [Item(product.value.id, 1, product.value.details)]
  {
  }

  /** When the fetched record is the one asked for, a successful add of an
      absent id leaves exactly one line with that id, the last one, ordering
      one unit. */
  lemma AddAbsentCreatesOneLine<P>(cart: seq<Item<P>>, id: int, available: int, p: Product<P>)
    requires !Contains(cart, id)
    requires 1 <= available && p.id == id
    ensures var r := Add(cart, id, Some(available), Some(p));
      && r.outcome == Ok
      && |r.cart| == |cart| + 1
      && r.cart[|cart|].amount == 1
      && forall k :: 0 <= k < |r.cart| ==> (r.cart[k].id == id <==> k == |cart|)
  {
  }

  /** A successful add leaves every line carrying the id at an amount no
      larger than the stock figure it was checked against. */
  lemma AddWithinStock<P>(cart: seq<Item<P>>, id: int, stock: Option<int>, product: Option<Product<P>>)
    requires UniqueIds(cart)
    ensures var r := Add(cart, id, stock, product);
      r.outcome == Ok ==>
        && stock.Some?
        && forall k :: 0 <= k < |r.cart| && r.cart[k].id == id ==> r.cart[k].amount <= stock.value
  {
  }

  /** Add keeps the cart's invariants (unique ids, positive amounts), provided
      the product lookup returns the record that was asked for. */
  lemma AddKeepsValid<P>(cart: seq<Item<P>>, id: int, stock: Option<int>, product: Option<Product<P>>)
    requires Valid(cart)
    requires product.Some? ==> product.value.id == id
    ensures Valid(Add(cart, id, stock, product).cart)
  {
  }

  // ---------------------------------------------------------------------------
  // removeProduct

  /** Removing an id that is in the cart reports success but commits a cart
      that still holds that id, at the same length: no line is ever deleted. */
  lemma RemoveKeepsTarget<P>(cart: seq<Item<P>>, id: int, k: int)
    requires 0 <= k < |cart| && cart[k].id == id
    ensures Remove(cart, id).outcome == Ok
    ensures Contains(Remove(cart, id).cart, id)
    ensures |Remove(cart, id).cart| == |cart|
  {
  }

  /** Removal as it is evidently meant: the line found for `id` is deleted
      and the lines around it keep their order. */
  function RemoveIntended<P>(cart: seq<Item<P>>, id: int): (r: Step<P>)
    ensures r.outcome == Ok <==> Contains(cart, id)
    ensures r.outcome == RemoveError <==> !Contains(cart, id)
    ensures r.outcome == RemoveError ==> r.cart == cart
    ensures r.outcome == Ok ==> |r.cart| == |cart| - 1
  {
    var i := FindIndex(cart, id);
    if 0 <= i then Step(Ok, cart[..i] + cart[i + 1..]) else Step(RemoveError, cart)
  }

  /** Intended removal of an id that is in a cart without duplicates: the
      committed cart is the old one without that line, in the same order, no
      line carries the id any more, and the invariants are kept. */
  lemma RemoveIntendedDeletes<P>(cart: seq<Item<P>>, id: int, k: int)
    requires UniqueIds(cart)
    requires 0 <= k < |cart| && cart[k].id == id
    ensures var r := RemoveIntended(cart, id);
      && r == Step(Ok, cart[..k] + cart[k + 1..])
      && |r.cart| == |cart| - 1
      && !Contains(r.cart, id)
      && (Valid(cart) ==> Valid(r.cart))
  {
  }

  /** The single-line cart of the removal scenario: as written, removing its
      id keeps the line; as intended, it leaves the cart empty. */
  lemma RemoveScenario<P>(details: P)
    ensures Remove([Item(2, 1, details)], 2) == Step(Ok, [Item(2, 1, details)])
    ensures RemoveIntended([Item(2, 1, details)], 2) == Step(Ok, [])
  {
  }

  // ---------------------------------------------------------------------------
  // updateProductAmount

  /** Updating an id that is in the cart to a positive amount: within stock,
      that line's amount becomes exactly `amount` and nothing else changes;
      over stock, or when the stock lookup fails, the cart is unchanged and
      the error says why. */
  lemma UpdatePresent<P>(cart: seq<Item<P>>, id: int, k: int, amount: int, stock: Option<int>)
    requires UniqueIds(cart)
    requires 0 <= k < |cart| && cart[k].id == id
    requires 0 < amount
    ensures var r := Update(cart, id, amount, stock);
      match stock
      case None => r == Step(UpdateError, cart)
      case Some(available) =>
        if amount > available then r == Step(StockError, cart)
        else
          && r.outcome == Ok
          && r.cart[k] == Item(id, amount, cart[k].details)
          && forall j :: 0 <= j < |cart| && j != k ==> r.cart[j] == cart[j]
  {
  }

  /** Updating an id that is not in the cart to a positive amount never
      changes the cart: over stock it reports the stock error, otherwise the
      update error. */
  lemma UpdateAbsent<P>(cart: seq<Item<P>>, id: int, amount: int, stock: Option<int>)
    requires !Contains(cart, id)
    requires 0 < amount
    ensures var r := Update(cart, id, amount, stock);
      r == Step(if stock.Some? && amount > stock.value then StockError else UpdateError, cart)
  {
  }

  /** The amount is absolute, not added: repeating an update is the same as
      doing it once. */
  lemma UpdateIdempotent<P>(cart: seq<Item<P>>, id: int, amount: int, stock: Option<int>)
    ensures Update(Update(cart, id, amount, stock).cart, id, amount, stock) == Update(cart, id, amount, stock)
  {
  }

  /** A successful update to a positive amount leaves every line carrying the
      id at an amount no larger than the stock figure it was checked against. */
  lemma UpdateWithinStock<P>(cart: seq<Item<P>>, id: int, amount: int, stock: Option<int>)
    requires UniqueIds(cart)
    requires 0 < amount
    ensures var r := Update(cart, id, amount, stock);
      r.outcome == Ok ==>
        && stock.Some?
        && forall k :: 0 <= k < |r.cart| && r.cart[k].id == id ==> r.cart[k].amount == amount <= stock.value
  {
  }

  /** Update keeps the cart's invariants. */
  lemma UpdateKeepsValid<P>(cart: seq<Item<P>>, id: int, amount: int, stock: Option<int>)
    requires Valid(cart)
    ensures Valid(Update(cart, id, amount, stock).cart)
  {
  }

  // ---------------------------------------------------------------------------
  // Sequences of calls

  /** One call to the provider, with the answers its remote lookups get. */
  datatype Call<P> =
    | AddCall(id: int, stock: Option<int>, product: Option<Product<P>>)
    | RemoveCall(id: int)
    | UpdateCall(id: int, amount: int, stock: Option<int>)

  /** The step one call takes. */
  function Apply<P>(cart: seq<Item<P>>, call: Call<P>): (r: Step<P>)
    ensures r.outcome != Ok ==> r.cart == cart
  {
    match call
    case AddCall(id, stock, product) => Add(cart, id, stock, product)
    case RemoveCall(id) => Remove(cart, id)
    case UpdateCall(id, amount, stock) => Update(cart, id, amount, stock)
  }

  /** The product lookups of a call return the records they were asked for. */
  predicate Fetches<P>(call: Call<P>)
  {
    call.AddCall? && call.product.Some? ==> call.product.value.id == call.id
  }

  /** The cart after the calls, one after another, each taken whole. */
  function Run<P>(cart: seq<Item<P>>, calls: seq<Call<P>>): seq<Item<P>>
    decreases |calls|
  {
    if |calls| == 0 then cart else Run(Apply(cart, calls[0]).cart, calls[1..])
  }

  /** Unique ids and positive amounts hold after any sequence of calls whose
      product lookups return the records asked for. */
  lemma {:induction false} RunKeepsValid<P>(cart: seq<Item<P>>, calls: seq<Call<P>>)
    requires Valid(cart)
    requires forall k :: 0 <= k < |calls| ==> Fetches(calls[k])
    ensures Valid(Run(cart, calls))
    decreases |calls|
  {
    if |calls| > 0 {
      match calls[0] {
        case AddCall(id, stock, product) => AddKeepsValid(cart, id, stock, product);
        case RemoveCall(id) =>
        case UpdateCall(id, amount, stock) => UpdateKeepsValid(cart, id, amount, stock);
      }
      RunKeepsValid(Apply(cart, calls[0]).cart, calls[1..]);
    }
  }

  /** Since removal commits the list unchanged, no sequence of calls ever
      takes an id out of the cart. */
  lemma {:induction false} RunNeverDropsIds<P>(cart: seq<Item<P>>, calls: seq<Call<P>>, id: int)
    requires Contains(cart, id)
    ensures Contains(Run(cart, calls), id)
    decreases |calls|
  {
    if |calls| > 0 {
      var next := Apply(cart, calls[0]).cart;
      var k :| 0 <= k < |cart| && cart[k].id == id;
      assert next[k].id == id;
      RunNeverDropsIds(next, calls[1..], id);
    }
  }

  /** Removals alone leave the cart exactly as it was. */
  lemma {:induction false} RunRemovesOnly<P>(cart: seq<Item<P>>, calls: seq<Call<P>>)
    requires forall k :: 0 <= k < |calls| ==> calls[k].RemoveCall?
    ensures Run(cart, calls) == cart
    decreases |calls|
  {
    if |calls| > 0 {
      RunRemovesOnly(cart, calls[1..]);
    }
  }
}
