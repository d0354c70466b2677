/** The cart state container: the in-memory cart, the storage slot it is
    persisted to, and the three operations that change them step by step.
    Each remote request (stock figure, catalogue record) is a parameter
    holding the service's answer or a failure; the notice an operation
    would show is its result. */
module CartProvider {
  import opened Wrappers
  import opened CartItems
  import opened CartRules

  class CartStore {
    /** The cart shown to the user. */
    var cart: Cart
    /** The durable storage slot for the cart; None when the key is absent. */
    var storage: Option<Cart>

    /** Initial state, read once from the storage slot. */
    constructor (stored: Option<Cart>)
      ensures storage == stored
      ensures stored.None? ==> cart == []
      ensures stored.Some? ==> cart == stored.value
    {
      storage := stored;
      if stored.Some? {
        cart := stored.value;
      } else {
        cart := [];
      }
    }

    method AddProduct(id: int, stock: Fetch<int>, product: Fetch<Product>) returns (notice: Notice)
      modifies this
      ensures Outcome(cart, storage, notice) == CartRules.AddProduct(old(cart), id, stock, product)
      ensures WellFormed(old(cart)) && (product.Ok? ==> product.value.id == id) ==> WellFormed(cart)
    {
      if WellFormed(cart) && (product.Ok? ==> product.value.id == id) {
        AddProductKeepsWellFormed(cart, id, stock, product);
      }
      storage := None;
      var found := FindIndex(cart, id);
      if found.Some? {
        var k := found.value;
        if stock.Failure? {
          return AddError;
        }
        if stock.value <= cart[k].amount {
          return OutOfStock;
        }
        // the increment lands on the line item the old list shares ...
        var bumped := Incremented(cart[k]);
        var shared := cart[k := bumped];
        cart := ReplaceById(cart, id, bumped);
        // ... and that old list is what is persisted
        storage := Some(shared);
      } else {
        if product.Failure? {
          return AddError;
        }
        cart := cart + [NewItem(product.value)];
        storage := Some(cart);
      }
      notice := NoNotice;
    }

    method RemoveProduct(id: int) returns (notice: Notice)
      modifies this
      ensures Outcome(cart, storage, notice) == CartRules.RemoveProduct(old(cart), old(storage), id)
      ensures WellFormed(old(cart)) ==> WellFormed(cart)
    {
      if WellFormed(cart) {
        RemoveProductKeepsWellFormed(cart, storage, id);
      }
      var found := FindIndex(cart, id);
      if found.None? {
        return RemoveError;
      }
      cart := RemoveById(cart, id);
      storage := None;
      storage := Some(cart);
      notice := NoNotice;
    }

    method UpdateProductAmount(id: int, amount: int, stock: Fetch<int>) returns (notice: Notice)
      modifies this
      ensures Outcome(cart, storage, notice) == CartRules.UpdateProductAmount(old(cart), old(storage), id, amount, stock)
      ensures WellFormed(old(cart)) ==> WellFormed(cart)
    {
      if WellFormed(cart) {
        UpdateProductKeepsWellFormed(cart, storage, id, amount, stock);
      }
      var found := FindIndex(cart, id);
      if stock.Failure? {
        return UpdateError;
      }
      if found.None? {
        return NoNotice;
      }
      if stock.value < amount {
        return OutOfStock;
      }
      if amount < 1 {
        return OutOfStock;
      }
      var k := found.value;
      cart := ReplaceById(cart, id, cart[k].(amount := amount));
      storage := None;
      storage := Some(cart);
      notice := NoNotice;
    }
  }

  /** A session on a fresh store: add a new product, add it again with a
      stock figure of five, ask for ten of it, then remove it. */
  method Session() returns (final: Cart, notices: seq<Notice>)
    ensures final == []
    ensures notices == [NoNotice, NoNotice, OutOfStock, NoNotice]
  {
    var store := new CartStore(None);
    var shoe := Product(7, "Shoe", "x.png", 10.0);
    var n1 := store.AddProduct(7, Failure, Ok(shoe));
    assert store.cart == [Item(7, "Shoe", "x.png", 10.0, 1)];
    var n2 := store.AddProduct(7, Ok(5), Failure);
    assert store.cart == [Item(7, "Shoe", "x.png", 10.0, 2)];
    var n3 := store.UpdateProductAmount(7, 10, Ok(5));
    var n4 := store.RemoveProduct(7);
    final := store.cart;
    notices := [n1, n2, n3, n4];
  }
}
