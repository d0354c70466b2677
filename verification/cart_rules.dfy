/** What each cart operation does to the cart and to its storage slot, and
    which notice it raises, as functions of the current state and of the
    answers the remote service gave. The stateful container in
    CartProvider is proved to follow these functions; the lemmas below
    state what the operations promise. */
module CartRules {
  import opened Wrappers
  import opened CartItems

  /** The user-visible notice an operation raises, if any. */
  datatype Notice =
    | NoNotice      // success, or the silent no-op of an update on an absent id
    | OutOfStock    // requested quantity unavailable (or below one)
    | AddError      // a failed request while adding
    | RemoveError   // removing an id that is not in the cart
    | UpdateError   // a failed request while changing a quantity

  /** The cart shown, the content of the storage slot, and the notice raised. */
  datatype Outcome = Outcome(cart: Cart, storage: Option<Cart>, notice: Notice)

  /** Adding one unit of product `id`. The storage key is removed before
      anything else. A product already in the cart is incremented when the
      stock figure exceeds its quantity: the increment is made on the line
      item the old list shares with the new one, and the old list is what
      is persisted. A new product is appended from its catalogue record. */
  function AddProduct(cart: Cart, id: int, stock: Fetch<int>, product: Fetch<Product>): (o: Outcome)
    ensures o.notice != NoNotice ==> o.cart == cart && o.storage == None
    ensures o.notice == NoNotice ==> o.storage.Some?
    ensures o.notice == NoNotice ==> |o.cart| == if InCart(cart, id) then |cart| else |cart| + 1
  {
    match FindIndex(cart, id)
    case Some(k) =>
      if stock.Failure? then Outcome(cart, None, AddError)
      else if stock.value <= cart[k].amount then Outcome(cart, None, OutOfStock)
      else
        var bumped := Incremented(cart[k]);
        Outcome(ReplaceById(cart, id, bumped), Some(cart[k := bumped]), NoNotice)
    case None =>
      if product.Failure? then Outcome(cart, None, AddError)
      else
        var next := cart + [NewItem(product.value)];
        Outcome(next, Some(next), NoNotice)
  }

  /** Removing product `id`: the filtered cart is persisted; an absent id
      raises RemoveError and touches neither cart nor storage. */
  function RemoveProduct(cart: Cart, storage: Option<Cart>, id: int): (o: Outcome)
    ensures o.notice == NoNotice <==> InCart(cart, id)
    ensures o.notice != NoNotice ==> o.cart == cart && o.storage == storage
    ensures !InCart(o.cart, id)
  {
    if FindIndex(cart, id).None? then
      Outcome(cart, storage, RemoveError)
    else
      var next := RemoveById(cart, id);
      Outcome(next, Some(next), NoNotice)
  }

  /** Setting the quantity of product `id` to `amount`. The stock figure is
      requested before the presence of the id is looked at, so a failed
      request raises UpdateError whether or not the id is in the cart. */
  function UpdateProductAmount(cart: Cart, storage: Option<Cart>, id: int, amount: int, stock: Fetch<int>): (o: Outcome)
    ensures o.cart != cart ==> o.notice == NoNotice && o.storage == Some(o.cart)
    ensures o.notice != NoNotice || !InCart(cart, id) ==> o.cart == cart && o.storage == storage
    ensures |o.cart| == |cart|
  {
    var found := FindIndex(cart, id);
    if stock.Failure? then Outcome(cart, storage, UpdateError)
    else if found.None? then Outcome(cart, storage, NoNotice)
    else if stock.value < amount then Outcome(cart, storage, OutOfStock)
    else if amount < 1 then Outcome(cart, storage, OutOfStock)
    else
      var k := found.value;
      var next := ReplaceById(cart, id, cart[k].(amount := amount));
      Outcome(next, Some(next), NoNotice)
  }

  // ----- addProduct -----

  /** Adding an id that is not in the cart appends exactly one line item,
      built from the fetched record with quantity one, keeps every earlier
      line item in place, and persists the new cart. */
  lemma AddNewProduct(cart: Cart, id: int, stock: Fetch<int>, p: Product)
    requires !InCart(cart, id)
    ensures var o := AddProduct(cart, id, stock, Ok(p));
      && o.notice == NoNotice
      && |o.cart| == |cart| + 1
      && o.cart[..|cart|] == cart
      && o.cart[|cart|] == Item(p.id, p.title, p.image, p.price, 1)
      && o.storage == Some(o.cart)
  {
    var o := AddProduct(cart, id, stock, Ok(p));
    assert o.cart == cart + [NewItem(p)];
    assert o.cart[..|cart|] == cart;
  }

  /** With distinct ids, adding an id present at position `k` when the
      stock figure exceeds its quantity raises that one quantity by one at
      the same position, changes nothing else, and the storage receives
      exactly the new cart (the old list carries the shared increment). */
  lemma AddInStock(cart: Cart, id: int, k: nat, s: int, product: Fetch<Product>)
    requires IdsUnique(cart)
    requires k < |cart| && cart[k].id == id
    requires s > cart[k].amount
    ensures var o := AddProduct(cart, id, Ok(s), product);
      && o.notice == NoNotice
      && o.cart == cart[k := Incremented(cart[k])]
      && o.storage == Some(o.cart)
  {
    FindUnique(cart, id, k);
    AddIncrements(cart, id, k, s, product);
    ReplaceAtFound(cart, id, k, Incremented(cart[k]));
  }

  /** Adding an id whose first line item sits at position `k`, when the
      stock figure exceeds that quantity, maps the incremented line item
      over the cart and persists the old list holding it at position `k`. */
  lemma AddIncrements(cart: Cart, id: int, k: nat, s: int, product: Fetch<Product>)
    requires FindIndex(cart, id) == Some(k)
    requires s > cart[k].amount
    ensures AddProduct(cart, id, Ok(s), product)
      == Outcome(ReplaceById(cart, id, Incremented(cart[k])), Some(cart[k := Incremented(cart[k])]), NoNotice)
  {
  }

  /** Adding an id already in the cart when the stock figure does not
      exceed its quantity raises OutOfStock; the cart is unchanged but the
      storage has already been cleared. */
  lemma AddOutOfStock(cart: Cart, id: int, k: nat, s: int, product: Fetch<Product>)
    requires FindIndex(cart, id) == Some(k)
    requires s <= cart[k].amount
    ensures AddProduct(cart, id, Ok(s), product) == Outcome(cart, None, OutOfStock)
  {
  }

  /** A failed request while adding raises AddError; the cart is unchanged
      and the storage has already been cleared. */
  lemma AddFetchFails(cart: Cart, id: int, stock: Fetch<int>, product: Fetch<Product>)
    requires if InCart(cart, id) then stock.Failure? else product.Failure?
    ensures AddProduct(cart, id, stock, product) == Outcome(cart, None, AddError)
  {
  }

  /** On an increment the stored list (the old list with the shared line
      item bumped) equals the cart shown exactly when every other line
      item with the same id already equals the bumped one. */
  lemma AddIncrementStoresShownCart(cart: Cart, id: int, k: nat, s: int, product: Fetch<Product>)
    requires FindIndex(cart, id) == Some(k)
    requires s > cart[k].amount
    ensures var o := AddProduct(cart, id, Ok(s), product);
      o.storage == Some(o.cart)
      <==> forall j :: 0 <= j < |cart| && j != k && cart[j].id == id ==> cart[j] == Incremented(cart[k])
  {
    var bumped := Incremented(cart[k]);
    AddIncrements(cart, id, k, s, product);
    var shown := ReplaceById(cart, id, bumped);
    var stored := cart[k := bumped];
    if stored == shown {
      forall j | 0 <= j < |cart| && j != k && cart[j].id == id ensures cart[j] == bumped {
        assert stored[j] == shown[j];
      }
    }
    if forall j :: 0 <= j < |cart| && j != k && cart[j].id == id ==> cart[j] == bumped {
      forall j | 0 <= j < |cart| ensures stored[j] == shown[j] {
      }
      assert stored == shown;
    }
  }

  /** One cart with a repeated id, where the two differ: two line items
      share id 7; the new cart shows the first one's bumped line item
      twice, while the storage keeps the second one as it was. */
  lemma AddWithDuplicateIdsStoresOtherCart()
    ensures var twice := [Item(7, "Shoe", "x.png", 10.0, 1), Item(7, "Shoe", "x.png", 10.0, 3)];
      var o := AddProduct(twice, 7, Ok(5), Failure);
      o.notice == NoNotice && o.storage != Some(o.cart)
  {
    var twice := [Item(7, "Shoe", "x.png", 10.0, 1), Item(7, "Shoe", "x.png", 10.0, 3)];
    var o := AddProduct(twice, 7, Ok(5), Failure);
    assert o.cart[1].amount == 2;
    assert o.storage.value[1].amount == 3;
  }

  // ----- removeProduct -----

  /** With distinct ids, removing the id found at position `k` drops
      exactly that line item, keeps the others in their order, and
      persists the result. */
  lemma RemovePresent(cart: Cart, storage: Option<Cart>, id: int, k: nat)
    requires IdsUnique(cart)
    requires k < |cart| && cart[k].id == id
    ensures var o := RemoveProduct(cart, storage, id);
      && o.notice == NoNotice
      && o.cart == cart[..k] + cart[k + 1..]
      && o.storage == Some(o.cart)
  {
    FindUnique(cart, id, k);
    RemoveAtFound(cart, id, k);
  }

  /** Removing an id that is not in the cart raises RemoveError and leaves
      cart and storage as they were. */
  lemma RemoveAbsentProduct(cart: Cart, storage: Option<Cart>, id: int)
    requires !InCart(cart, id)
    ensures RemoveProduct(cart, storage, id) == Outcome(cart, storage, RemoveError)
  {
  }

  // ----- updateProductAmount -----

  /** With distinct ids, an update to an amount between one and the stock
      figure sets exactly that line item's quantity, changes nothing else,
      and persists the new cart. */
  lemma UpdateAccepted(cart: Cart, storage: Option<Cart>, id: int, k: nat, amount: int, s: int)
    requires IdsUnique(cart)
    requires k < |cart| && cart[k].id == id
    requires 1 <= amount <= s
    ensures var o := UpdateProductAmount(cart, storage, id, amount, Ok(s));
      && o.notice == NoNotice
      && o.cart == cart[k := cart[k].(amount := amount)]
      && o.storage == Some(o.cart)
  {
    FindUnique(cart, id, k);
    ReplaceAtFound(cart, id, k, cart[k].(amount := amount));
  }

  /** An update of a present id to an amount above the stock figure or
      below one raises OutOfStock and changes nothing. */
  lemma UpdateRejected(cart: Cart, storage: Option<Cart>, id: int, amount: int, s: int)
    requires InCart(cart, id)
    requires amount > s || amount < 1
    ensures UpdateProductAmount(cart, storage, id, amount, Ok(s)) == Outcome(cart, storage, OutOfStock)
  {
  }

  /** An update of an absent id is a silent no-op once the stock figure has
      been obtained, and raises UpdateError when the request fails. */
  lemma UpdateAbsent(cart: Cart, storage: Option<Cart>, id: int, amount: int, stock: Fetch<int>)
    requires !InCart(cart, id)
    ensures UpdateProductAmount(cart, storage, id, amount, stock)
      == Outcome(cart, storage, if stock.Failure? then UpdateError else NoNotice)
  {
  }

  /** A failed stock request raises UpdateError and changes neither cart
      nor storage, whether or not the id is in the cart. */
  lemma UpdateFetchFails(cart: Cart, storage: Option<Cart>, id: int, amount: int)
    ensures UpdateProductAmount(cart, storage, id, amount, Failure) == Outcome(cart, storage, UpdateError)
  {
  }

  // ----- invariants -----

  /** Adding keeps ids distinct and quantities positive, provided the
      catalogue record answered for `id` carries that same id. */
  lemma AddProductKeepsWellFormed(cart: Cart, id: int, stock: Fetch<int>, product: Fetch<Product>)
    requires WellFormed(cart)
    requires product.Ok? ==> product.value.id == id
    ensures WellFormed(AddProduct(cart, id, stock, product).cart)
  {
    match FindIndex(cart, id)
    case Some(k) =>
      ReplaceKeepsWellFormed(cart, id, Incremented(cart[k]));
    case None =>
      if product.Ok? {
        AppendKeepsWellFormed(cart, NewItem(product.value));
      }
  }

  /** Removing keeps ids distinct and quantities positive. */
  lemma RemoveProductKeepsWellFormed(cart: Cart, storage: Option<Cart>, id: int)
    requires WellFormed(cart)
    ensures WellFormed(RemoveProduct(cart, storage, id).cart)
  {
    RemoveKeepsWellFormed(cart, id);
  }

  /** Updating keeps ids distinct and quantities positive. */
  lemma UpdateProductKeepsWellFormed(cart: Cart, storage: Option<Cart>, id: int, amount: int, stock: Fetch<int>)
    requires WellFormed(cart)
    ensures WellFormed(UpdateProductAmount(cart, storage, id, amount, stock).cart)
  {
    var found := FindIndex(cart, id);
    if stock.Ok? && found.Some? && 1 <= amount <= stock.value {
      ReplaceKeepsWellFormed(cart, id, cart[found.value].(amount := amount));
    }
  }

  /** With distinct ids, every successful operation leaves the storage
      holding exactly the cart that is shown. */
  lemma StorageFollowsCart(cart: Cart, storage: Option<Cart>, id: int, amount: int, stock: Fetch<int>, product: Fetch<Product>)
    requires IdsUnique(cart)
    ensures var o := AddProduct(cart, id, stock, product);
      o.notice == NoNotice ==> o.storage == Some(o.cart)
    ensures var o := RemoveProduct(cart, storage, id);
      o.notice == NoNotice ==> o.storage == Some(o.cart)
    ensures var o := UpdateProductAmount(cart, storage, id, amount, stock);
      o.notice == NoNotice && InCart(cart, id) ==> o.storage == Some(o.cart)
  {
    match FindIndex(cart, id)
    case Some(k) =>
      if stock.Ok? && stock.value > cart[k].amount {
        AddInStock(cart, id, k, stock.value, product);
      }
    case None =>
  }
}
