/** The cart as a value: an ordered list of line items and the list
    transforms the cart operations are built from (find, map-replace,
    filter), with the facts the operations rely on. */
module CartItems {
  import opened Wrappers

  /** A cart line item: the product's catalogue fields plus the quantity.
      `price` is only ever copied, never computed with. */
  datatype Item = Item(id: int, title: string, image: string, price: real, amount: int)

  /** The catalogue record answered for `products/{id}`. */
  datatype Product = Product(id: int, title: string, image: string, price: real)

  /** Insertion order is display order. */
  type Cart = seq<Item>

  predicate InCart(cart: Cart, id: int) {
    exists i :: 0 <= i < |cart| && cart[i].id == id
  }

  /** At most one line item per product id. */
  predicate IdsUnique(cart: Cart) {
    forall i, j :: 0 <= i < j < |cart| ==> cart[i].id != cart[j].id
  }

  /** Every line item has a positive quantity. */
  predicate AmountsPositive(cart: Cart) {
    forall i :: 0 <= i < |cart| ==> cart[i].amount >= 1
  }

  /** The invariant the three cart operations keep. */
  predicate WellFormed(cart: Cart) {
    IdsUnique(cart) && AmountsPositive(cart)
  }

  /** The line item a new product enters the cart with: the fetched
      catalogue fields and a quantity of one. */
  function NewItem(p: Product): Item {
    Item(p.id, p.title, p.image, p.price, 1)
  }

  /** The line item with its quantity raised by one (`amount++`). */
  function Incremented(item: Item): Item {
    item.(amount := item.amount + 1)
  }

  /** `cart.find(product => product.id === id)`, as the position of the
      first line item with that id, or None when there is none. */
  function FindIndex(cart: Cart, id: int): (r: Option<nat>)
    ensures r.None? <==> !InCart(cart, id)
    ensures r.Some? ==> r.value < |cart| && cart[r.value].id == id
    ensures r.Some? ==> forall j :: 0 <= j < r.value ==> cart[j].id != id
  {
    if cart == [] then None
    else if cart[0].id == id then Some(0)
    else
      match FindIndex(cart[1..], id)
      case None =>
        assert forall i :: 1 <= i < |cart| ==> cart[i] == cart[1..][i - 1];
        None
      case Some(k) => Some(k + 1)
  }

  /** `cart.map(product => product.id === id ? item : product)`: every line
      item with that id is replaced by `item`, position by position. */
  function ReplaceById(cart: Cart, id: int, item: Item): (r: Cart)
    ensures |r| == |cart|
    ensures forall i :: 0 <= i < |cart| ==> r[i] == (if cart[i].id == id then item else cart[i])
  {
    if cart == [] then []
    else [if cart[0].id == id then item else cart[0]] + ReplaceById(cart[1..], id, item)
  }

  /** `cart.filter(product => id !== product.id)`. */
  function RemoveById(cart: Cart, id: int): (r: Cart)
    ensures !InCart(r, id)
    ensures forall x :: x in r <==> x in cart && x.id != id
    ensures |r| <= |cart|
  {
    if cart == [] then []
    else if cart[0].id == id then RemoveById(cart[1..], id)
    else [cart[0]] + RemoveById(cart[1..], id)
  }

  /** `filter` works piecewise: filtering a concatenation filters each
      part and keeps the parts in order. With RemoveAbsent and the
      one-element case this fixes the order and multiplicity of the
      line items kept. */
  lemma {:induction false} RemoveByIdConcat(a: Cart, b: Cart, id: int)
    ensures RemoveById(a + b, id) == RemoveById(a, id) + RemoveById(b, id)
  {
    if a != [] {
      assert (a + b)[0] == a[0];
      assert (a + b)[1..] == a[1..] + b;
      RemoveByIdConcat(a[1..], b, id);
    } else {
      assert a + b == b;
    }
  }

  /** Filtering out an id the cart does not hold changes nothing. */
  lemma {:induction false} RemoveAbsent(cart: Cart, id: int)
    requires !InCart(cart, id)
    ensures RemoveById(cart, id) == cart
  {
    if cart != [] {
      assert cart[0].id != id;
      assert !InCart(cart[1..], id) by {
        forall i | 0 <= i < |cart[1..]| ensures cart[1..][i].id != id {
          assert cart[1..][i] == cart[i + 1];
        }
      }
      RemoveAbsent(cart[1..], id);
      assert [cart[0]] + cart[1..] == cart;
    }
  }

  /** With distinct ids, the first line item with an id is the only one. */
  lemma FindUnique(cart: Cart, id: int, k: nat)
    requires IdsUnique(cart)
    requires k < |cart| && cart[k].id == id
    ensures FindIndex(cart, id) == Some(k)
  {
  }

  /** With distinct ids, filtering out the id held at position `k` removes
      exactly that one line item and keeps every other one, in order. */
  lemma {:induction false} RemoveAtFound(cart: Cart, id: int, k: nat)
    requires IdsUnique(cart)
    requires k < |cart| && cart[k].id == id
    ensures RemoveById(cart, id) == cart[..k] + cart[k + 1..]
  {
    var rest := cart[1..];
    assert IdsUnique(rest) by {
      forall i, j | 0 <= i < j < |rest| ensures rest[i].id != rest[j].id {
        assert rest[i] == cart[i + 1] && rest[j] == cart[j + 1];
      }
    }
    if k == 0 {
      assert !InCart(rest, id) by {
        forall i | 0 <= i < |rest| ensures rest[i].id != id {
          assert rest[i] == cart[i + 1];
        }
      }
      RemoveAbsent(rest, id);
    } else {
      assert rest[k - 1] == cart[k];
      RemoveAtFound(rest, id, k - 1);
      assert cart[..k] == [cart[0]] + rest[..k - 1];
      assert cart[k + 1..] == rest[k..];
    }
  }

  /** With distinct ids, replacing the id held at position `k` updates
      that one position and leaves every other line item where it was. */
  lemma {:induction false} ReplaceAtFound(cart: Cart, id: int, k: nat, item: Item)
    requires IdsUnique(cart)
    requires k < |cart| && cart[k].id == id
    ensures ReplaceById(cart, id, item) == cart[k := item]
  {
    var r := ReplaceById(cart, id, item);
    forall i | 0 <= i < |cart| ensures r[i] == cart[k := item][i] {
      if i != k {
        assert cart[i].id != cart[k].id;
      }
    }
  }

  /** Replacing an id by a line item with the same id and a positive
      quantity keeps the cart well formed. */
  lemma ReplaceKeepsWellFormed(cart: Cart, id: int, item: Item)
    requires WellFormed(cart)
    requires item.id == id && item.amount >= 1
    ensures WellFormed(ReplaceById(cart, id, item))
  {
    var r := ReplaceById(cart, id, item);
    assert forall i :: 0 <= i < |r| ==> r[i].id == cart[i].id;
  }

  /** Dropping the first line item keeps the cart well formed. */
  lemma TailKeepsWellFormed(cart: Cart)
    requires cart != [] && WellFormed(cart)
    ensures WellFormed(cart[1..])
  {
    var rest := cart[1..];
    forall i, j | 0 <= i < j < |rest| ensures rest[i].id != rest[j].id {
      assert rest[i] == cart[i + 1] && rest[j] == cart[j + 1];
    }
    forall i | 0 <= i < |rest| ensures rest[i].amount >= 1 {
      assert rest[i] == cart[i + 1];
    }
  }

  /** Putting a line item with a fresh id and a positive quantity in front
      of a well-formed cart keeps it well formed. */
  lemma PrependKeepsWellFormed(item: Item, cart: Cart)
    requires WellFormed(cart)
    requires !InCart(cart, item.id) && item.amount >= 1
    ensures WellFormed([item] + cart)
  {
    var r := [item] + cart;
    forall i, j | 0 <= i < j < |r| ensures r[i].id != r[j].id {
      assert r[j] == cart[j - 1];
      if i > 0 {
        assert r[i] == cart[i - 1];
      }
    }
  }

  /** Filtering an id out of a well-formed cart keeps it well formed. */
  lemma {:induction false} RemoveKeepsWellFormed(cart: Cart, id: int)
    requires WellFormed(cart)
    ensures WellFormed(RemoveById(cart, id))
  {
    if cart != [] {
      var rest := cart[1..];
      TailKeepsWellFormed(cart);
      RemoveKeepsWellFormed(rest, id);
      if cart[0].id != id {
        var tail := RemoveById(rest, id);
        assert !InCart(tail, cart[0].id) by {
          forall j | 0 <= j < |tail| ensures tail[j].id != cart[0].id {
            assert tail[j] in rest;
            var m :| 0 <= m < |rest| && rest[m] == tail[j];
            assert rest[m] == cart[m + 1];
          }
        }
        PrependKeepsWellFormed(cart[0], tail);
      }
    }
  }

  /** Appending a line item whose id is not yet in the cart, with a
      positive quantity, keeps the cart well formed. */
  lemma AppendKeepsWellFormed(cart: Cart, item: Item)
    requires WellFormed(cart)
    requires !InCart(cart, item.id) && item.amount >= 1
    ensures WellFormed(cart + [item])
  {
  }
}
