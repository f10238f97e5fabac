/** The cart provider: the committed cart and the three operations that copy
    it, change the copy and commit it. Each operation is proved
    to leave exactly the cart, and report exactly the outcome, that the
    functions of CartOps describe. */
module UseCart {
  import opened CartItems
  import opened CartOps

  class CartProvider<P> {
    /** The committed cart (the provider's state). */
    var cart: seq<Item<P>>

    /** The initial cart: what storage held under the cart key, or the empty
        cart when it held nothing. */
    constructor (stored: Option<seq<Item<P>>>)
      ensures cart == if stored.Some? then stored.value else []
    {
      cart := if stored.Some? then stored.value else [];
    }

    /** addProduct. `stock` and `product` are the answers of the stock and
        product lookups; a failed lookup is caught and reported as AddError. */
    method AddProduct(productId: int, stock: Option<int>, product: Option<Product<P>>) returns (outcome: Outcome)
      modifies this
      ensures Step(outcome, cart) == Add(old(cart), productId, stock, product)
      ensures outcome != Ok ==> cart == old(cart)
      ensures Valid(old(cart)) && (product.Some? ==> product.value.id == productId) ==> Valid(cart)
    {
      var updatedCart := cart;
      var i := FindIndex(updatedCart, productId);
      if stock.None? {
        return AddError;
      }
      var quantity := (if 0 <= i then updatedCart[i].amount else 0) + 1;
      if quantity > stock.value {
        return StockError;
      }
      if 0 <= i {
        updatedCart := updatedCart[i := updatedCart[i].(amount := quantity)];
      } else {
        if product.None? {
          return AddError;
        }
        updatedCart := updatedCart + [Item(product.value.id, 1, product.value.details)];
      }
      cart := updatedCart;
      outcome := Ok;
      if Valid(old(cart)) && (product.Some? ==> product.value.id == productId) {
        AddKeepsValid(old(cart), productId, stock, product);
      }
    }

    /** removeProduct, as written: an absent id is reported; for a present id
        the copy is committed without the line having been deleted from it. */
    method RemoveProduct(productId: int) returns (outcome: Outcome)
      modifies this
      ensures Step(outcome, cart) == Remove(old(cart), productId)
      ensures cart == old(cart)
    {
      var updatedCart := cart;
      var productInCart := FindIndex(updatedCart, productId);
      if 0 <= productInCart {
        // `slice(productInCart, 1)` copies positions productInCart up to 1
        // into a new list, which nothing keeps.
        var discarded := if productInCart < 1 then updatedCart[productInCart..1] else [];
        cart := updatedCart;
        outcome := Ok;
      } else {
        outcome := RemoveError;
      }
    }

    /** updateProductAmount. A non-positive amount is ignored without a
        message; `stock` is the answer of the stock lookup, made only for a
        positive amount. */
    method UpdateProductAmount(productId: int, amount: int, stock: Option<int>) returns (outcome: Outcome)
      modifies this
      ensures Step(outcome, cart) == Update(old(cart), productId, amount, stock)
      ensures outcome != Ok ==> cart == old(cart)
      ensures Valid(old(cart)) ==> Valid(cart)
    {
      if amount <= 0 {
        return Ok;
      }
      if stock.None? {
        return UpdateError;
      }
      if amount > stock.value {
        return StockError;
      }
      var updatedCart := cart;
      var i := FindIndex(updatedCart, productId);
      if 0 <= i {
        updatedCart := updatedCart[i := updatedCart[i].(amount := amount)];
        cart := updatedCart;
        outcome := Ok;
      } else {
        outcome := UpdateError;
      }
      if Valid(old(cart)) {
        UpdateKeepsValid(old(cart), productId, amount, stock);
      }
    }
  }

  /** A client: the add, add-over-stock and remove scenarios, with what the
      provider's contracts let a caller conclude about each. */
  method Scenarios()
  {
    var provider := new CartProvider<string>(None);
    var o := provider.AddProduct(5, Some(10), Some(Product(5, "Shoe")));
    assert o == Ok && provider.cart == [Item(5, 1, "Shoe")];

    provider := new CartProvider<string>(Some([Item(1, 2, "Sneaker")]));
    o := provider.AddProduct(1, Some(2), None);
    assert o == StockError && provider.cart == [Item(1, 2, "Sneaker")];

    provider := new CartProvider<string>(Some([Item(2, 1, "Boot")]));
    o := provider.RemoveProduct(2);
    assert o == Ok && provider.cart == [Item(2, 1, "Boot")];
  }
}
