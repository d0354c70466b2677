# RocketShoes cart state, in Dafny

This project models the cart state manager of the RocketShoes storefront
(`src/hooks/useCart.tsx`, the `CartProvider` component). The manager holds an
ordered list of cart line items `{id, title, image, price, amount}`. It keeps
that list in a browser storage slot under the key `@RocketShoes:cart`, and it
changes the list through three operations: `addProduct`, `removeProduct` and
`updateProductAmount`. `addProduct` asks the remote service for a stock
figure (product already in the cart) or a catalogue record (new product);
`updateProductAmount` asks for a stock figure; `removeProduct` asks for
nothing. Each operation then applies its guard; only on success does it
replace the cart and rewrite the storage slot.

Layout:

- `wrappers.dfy` (`Wrappers`): `Option` for the storage slot, and `Fetch`.
  A `Fetch` holds the answer of a remote request, or `Failure`.
- `cart_items.dfy` (`CartItems`): the `Item` and `Product` records, plus the
  list transforms the operations use:
  - `find` is `FindIndex`,
  - the replacing `map` is `ReplaceById`,
  - `filter` is `RemoveById`.

  It also defines the cart invariant `WellFormed`: ids are pairwise distinct
  and every amount is at least one.
- `cart_rules.dfy` (`CartRules`): one function per operation. Each gives the
  new cart, the new storage slot and the notice raised, as a function of the
  old state and of the service's answers. Lemmas state each promised
  behaviour and the preservation of `WellFormed`.
- `cart_provider.dfy` (`CartProvider`): class `CartStore`, with fields `cart`
  and `storage` and three methods that change them step by step. Each method
  is proved to produce exactly the outcome the matching `CartRules` function
  gives, and to keep `WellFormed` (for `AddProduct`, when the catalogue
  record carries the requested id).

The notices are `NoNotice`, `OutOfStock`, `AddError`, `RemoveError` and
`UpdateError`. They stand for the toast messages the code shows.

Behaviour of the code that the model reproduces:

- `addProduct` removes the storage key before anything else
  (`useCart.tsx:36`). So an out-of-stock result or a failed request leaves
  the in-memory cart unchanged, but leaves the storage slot empty.
- On an increment, `addProduct` persists the old list `cart`, not `newArray`
  (`useCart.tsx:58`). The found line item was bumped in place at line 47, and
  the old list shares it. The model therefore stores the old list with the
  bumped line item at the found position. Lemma `StorageFollowsCart` proves
  that this equals the new cart whenever ids are distinct. So what is stored
  is the post-increment cart, not the pre-increment one.
- `updateProductAmount` requests the stock figure before it checks whether
  the id is present (`useCart.tsx:113-118`). A failed request therefore
  raises `UpdateError` even for an id that is not in the cart. The update is
  a silent no-op only when the request succeeds.
- A new line item takes the id of the fetched catalogue record
  (`useCart.tsx:68`), not the requested id. That ids stay distinct therefore
  relies on the service answering `products/{id}` with that same id.

## Model

| member | source | states |
|---|---|---|
| CartItems.FindIndex | src/hooks/useCart.tsx:37 | `find` by id: None exactly when no line item has the id; otherwise the position of a line item with that id, with no earlier one having it |
| CartItems.ReplaceById | src/hooks/useCart.tsx:49-54 | the replacing `map` keeps the length and swaps in the new line item at every position holding the id, leaving all other positions alone |
| CartItems.RemoveById | src/hooks/useCart.tsx:95 | `filter` leaves no line item with the id, holds a line item exactly when the cart holds it with another id, and never grows the cart (order and multiplicity: RemoveByIdConcat) |
| CartItems.ReplaceAtFound | src/hooks/useCart.tsx:49-54 | with distinct ids, the replacing `map` changes only the position that holds the id: the result is the cart updated at that one position |
| CartItems.RemoveByIdConcat | src/hooks/useCart.tsx:95 | `filter` distributes over concatenation, so the kept line items stay in their original order and multiplicity |
| CartItems.RemoveAtFound | src/hooks/useCart.tsx:95 | with distinct ids, `filter` removes exactly the one line item with the id and keeps the others in their original order |
| CartItems.ReplaceKeepsWellFormed | src/hooks/useCart.tsx:49-54 | replacing a line item by one with the same id and a positive amount keeps ids distinct and amounts positive |
| CartItems.RemoveKeepsWellFormed | src/hooks/useCart.tsx:95 | filtering an id out keeps ids distinct and amounts positive |
| CartItems.AppendKeepsWellFormed | src/hooks/useCart.tsx:65-74 | appending a line item whose id is absent, with a positive amount, keeps ids distinct and amounts positive |
| CartRules.AddProduct | src/hooks/useCart.tsx:34-84 | `addProduct`: on any notice the cart is unchanged and the storage slot is empty; on success the storage is written, and the cart keeps its length for a present id and grows by one for a new id |
| CartRules.RemoveProduct | src/hooks/useCart.tsx:86-106 | `removeProduct`: succeeds exactly when the id is present; on RemoveError cart and storage are untouched; the resulting cart never holds the id |
| CartRules.UpdateProductAmount | src/hooks/useCart.tsx:108-150 | `updateProductAmount`: the cart length never changes; any change of the cart is a success whose cart is persisted; a notice or an absent id leaves cart and storage untouched |
| CartRules.AddNewProduct | src/hooks/useCart.tsx:63-78 | adding an absent id appends exactly one line item with the fetched id, title, image and price and amount 1, keeps every earlier line item in place, and stores the new cart |
| CartRules.AddInStock | src/hooks/useCart.tsx:40-58 | with distinct ids and stock above the current amount, that line item's amount rises by exactly 1 at the same position, nothing else changes, and the stored cart equals the new cart |
| CartRules.AddOutOfStock | src/hooks/useCart.tsx:36-45 | stock at or below the current amount gives OutOfStock, leaves the cart unchanged, and leaves the storage slot cleared |
| CartRules.AddFetchFails | src/hooks/useCart.tsx:34-83 | a failed stock request (present id) or catalogue request (absent id) gives AddError, leaves the cart unchanged, and leaves the storage slot cleared |
| CartRules.AddIncrementStoresShownCart | src/hooks/useCart.tsx:47-58 | for a cart whose line items are separate objects, such as one read from storage: on an increment, the stored list equals the cart shown exactly when every other line item with the same id already equals the bumped line item |
| CartRules.AddWithDuplicateIdsStoresOtherCart | src/hooks/useCart.tsx:47-58 | for one cart with a repeated id, what an increment stores differs from the cart shown |
| CartRules.RemovePresent | src/hooks/useCart.tsx:95-100 | with distinct ids, removing the id at position k gives the cart without that one position, in order, and stores it |
| CartRules.RemoveAbsentProduct | src/hooks/useCart.tsx:88-94 | removing an absent id gives RemoveError and leaves cart and storage as they were |
| CartRules.UpdateAccepted | src/hooks/useCart.tsx:120-144 | with distinct ids and 1 <= amount <= stock, the amount at position k becomes exactly `amount`, nothing else changes, and the new cart is stored |
| CartRules.UpdateRejected | src/hooks/useCart.tsx:120-130 | for a present id, an amount above the stock or below 1 gives OutOfStock and changes neither cart nor storage |
| CartRules.UpdateAbsent | src/hooks/useCart.tsx:113-118 | for an absent id, nothing changes; the notice is NoNotice when the stock request succeeds and UpdateError when it fails |
| CartRules.UpdateFetchFails | src/hooks/useCart.tsx:112-149 | a failed stock request gives UpdateError and leaves cart and storage untouched, for every cart, id and amount, present or absent |
| CartRules.AddProductKeepsWellFormed | src/hooks/useCart.tsx:37-78 | adding keeps ids distinct and amounts positive, given that the catalogue record carries the requested id |
| CartRules.RemoveProductKeepsWellFormed | src/hooks/useCart.tsx:88-100 | removing keeps ids distinct and amounts positive |
| CartRules.UpdateProductKeepsWellFormed | src/hooks/useCart.tsx:120-141 | updating keeps ids distinct and amounts positive, because amounts below 1 are rejected |
| CartRules.StorageFollowsCart | src/hooks/useCart.tsx:56-58 | with distinct ids, every successful add, remove or update leaves the storage holding exactly the cart shown |
| CartProvider.CartStore.constructor | src/hooks/useCart.tsx:25-32 | the initial cart is the stored cart, or the empty cart when the storage key is absent |
| CartProvider.CartStore.AddProduct | src/hooks/useCart.tsx:34-84 | clears storage, then increments the line item or appends, and persists; the new cart, storage and notice are exactly `CartRules.AddProduct` of the old cart, and `WellFormed` is kept when the catalogue record carries the requested id |
| CartProvider.CartStore.RemoveProduct | src/hooks/useCart.tsx:86-106 | filters the id out and persists, or reports RemoveError; the result is exactly `CartRules.RemoveProduct`, and `WellFormed` is kept |
| CartProvider.CartStore.UpdateProductAmount | src/hooks/useCart.tsx:108-150 | requests the stock figure, applies the guards, then sets the amount and persists; the result is exactly `CartRules.UpdateProductAmount`, and `WellFormed` is kept |
| CartProvider.Session | src/hooks/useCart.tsx:34-106 | on a fresh store: add product 7, add it again with stock 5, ask for 10 of it, remove it; the notices are NoNotice, NoNotice, OutOfStock, NoNotice and the cart ends empty |

## Left out

- The React wiring is left out: `createContext`, `useState`, the
  `CartContext.Provider` element and the `useCart` hook. `setCart` becomes
  an assignment to the `cart` field.
- The HTTP calls `api.get("stock/…")` and `api.get("products/…")` are left
  out. Their answers, or their failure, are parameters of the operations.
  A failure takes the path of the operation's `catch` block.
- The toast messages are left out. Only the kind of notice is returned.
- JSON serialisation is left out. The storage slot holds the cart value
  itself. A stored value that `JSON.parse` rejects, which would throw in the
  initial-state loader, is not modelled.
- Failures of the storage itself are left out (`localStorage` throwing, for
  example when its quota is exceeded). So the `catch` block of
  `removeProduct` (`useCart.tsx:103-105`) cannot be reached in the model,
  and neither can the storage-failure paths of the other two operations.
- Overlapping asynchronous calls are left out, along with the updates they
  can lose. Each operation is modelled as one atomic step.
- Numbers are simplified. `price` is a `real` that is only ever copied.
  Ids and amounts are unbounded integers, not JavaScript numbers, so `NaN`,
  fractions and infinities are not modelled.
- Object identity is modelled only partly. The in-place mutation of the
  found line item (`useCart.tsx:47`, `useCart.tsx:132`) appears only as its
  effect on what is persisted. Other aliasing of line-item objects is not
  represented.
- CartRules.AddProductKeepsWellFormed: assumes that the catalogue record
  fetched for an id carries that same id. The code does not check this, and
  without it an append could repeat an id already in the cart.
- CartRules.AddIncrementStoresShownCart: holds of the code only while the
  positions sharing an id hold separate objects. The model treats line items
  as separate values. After an increment on a repeated id, the code's
  replacing `map` (`useCart.tsx:49-54`) puts one shared object at every such
  position, so a later increment bumps them all (`useCart.tsx:47`) and
  persists the cart shown (`useCart.tsx:58`). The model instead stores the
  earlier value at the later positions.
