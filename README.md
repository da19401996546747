# Storefront store rules, modelled in Dafny

The storefront keeps three collections in the browser's key-value storage: the
product catalog (`products`), the cart (`cart`) and the order log (`orders`). The
admin console creates, edits and deletes products and shows stock statistics. The
storefront adds products to the cart and filters product cards by a search term.
The cart page changes quantities, removes lines, computes the order summary and
turns the cart into an order at checkout.

This project models those store rules with the page rendering stripped away. It
has one module per source file and three shared modules:

| module | file | models |
|---|---|---|
| `Wrappers` | wrappers.dfy | `Option`, standing for `null`/absent |
| `Seqs` | seqs.dfy | `Array.prototype.filter` and `findIndex`/`find`, and the "keys are unique" invariant |
| `Records` | records.dfy | the record types, the storage (`class Store`, one `Option<seq<…>>` field per key) and lookup by id |
| `Catalog` | catalog.dfy | client/scripts/admin.js |
| `CartPage` | cart.dfy | client/scripts/cart.js, and the badge count that `updateCartCount` in client/scripts/product.controller.js computes with the same `reduce` |
| `Storefront` | storefront.dfy | client/scripts/product.controller.js |

Record fields keep the source's names. Catalog records use `Name` and `country`.
Cart lines use `name` and `currency`. `Storefront.Snapshot` maps one set to the other.

How the source's behaviour is represented:

- **Storage.** A storage key that was never written is `None`. `Load` reads it the
  way every handler does (`JSON.parse(localStorage.getItem(k)) || []`), so an
  absent key reads as the empty sequence.
- **Handlers that change state step by step are methods on the `Store`.** These are
  `handleFormSubmit`, `handleQuantityChange`, `placeOrder`, `addToCart` and the
  cart start-up statement. Each method's `ensures` gives the new contents of every
  key in terms of the old ones, through a specification function
  (`SubmittedCatalog`, `QuantityChanged`, `Checkout`, `AddedToCart`, `InitCart`).
  The properties are lemmas about those functions. A handler that returns early
  writes nothing, and the contracts say so.
- **Handlers that are a single `filter` or `reduce` are functions.** These are
  `deleteProduct`, `removeCartItem`, `updateStats` and `updateCartCount`.
- **The summary loop is a method.** `updateOrderSummary` accumulates the subtotal
  in a `forEach`. It is a loop with invariants, proved equal to the recursive
  `Subtotal`.
- **The admin page's module-level state.** `currentProductId` and
  `uploadedImageData` are fields of `Catalog.AdminForm`. A successful submit ends
  with `closeModal()`, which clears `currentProductId` only.
- **JavaScript truthiness is written out.** `if (currentProductId)` is an id that
  is present and not 0. `uploadedImageData || field` treats `null` and `""` alike.
  The required-field checks test for the empty string.

Points where the code behaves differently from what a reader of the page might
expect, and which the model follows:

- **Update overwrites the form's fields rather than merging them.** The code
  always writes `Name`, `price`, `country`, `availability` and `category` from the
  form. `id` and `quantity` always survive. The previous `image` survives exactly
  when the chosen image is empty; any non-empty chosen image replaces it.
- **Delete and remove drop every record with the id, not only the first.**
  `deleteProduct` and `removeCartItem` both filter the whole collection.
- **An unparseable price is never logged.** `parseFloat(x) || 0` already turns NaN
  into 0. That makes the `isNaN` branch at client/scripts/cart.js:159-162
  unreachable.
- **Product ids are not checked for uniqueness.** A new product's id is whatever
  `Date.now()` returns. `Catalog.CreateKeepsIdsUnique` therefore assumes the clock
  value is not already taken.
- **`addToCart` ignores availability.** Only the disabled button keeps
  out-of-stock products out of the cart, and the model follows that.

## Model

| member | source | states |
|---|---|---|
| `Seqs.Filter` | client/scripts/admin.js:271 | keeps exactly the elements that satisfy the predicate, never more elements than the input |
| `Seqs.FirstIndex` | client/scripts/admin.js:182 | `findIndex`: an index of a matching element with no match before it, or none exactly when nothing matches |
| `Records.Load` | client/scripts/admin.js:177 | `JSON.parse(getItem(k))`, falling back to `[]`: an absent key reads as the empty sequence; `Storefront.InitCart` is proved not to change what the cart reads as |
| `Records.ProductIndex` | client/scripts/admin.js:182 | the result is a position holding the id with no earlier position holding it, or none exactly when no product has the id |
| `Records.LineIndex` | client/scripts/cart.js:114 | the result is a line holding the id with no earlier line holding it, or none exactly when no line has the id |
| `Records.ProductIndexIs` | client/scripts/admin.js:182 | the product lookup returns `i` whenever `i` is the first position holding the id |
| `Records.LineIndexIs` | client/scripts/cart.js:114 | the cart-line lookup returns `i` whenever `i` is the first position holding the id |
| `Catalog.RequiredFieldsFilled` | client/scripts/admin.js:172-175 | true exactly when name, price, currency and category are all non-empty; `HandleFormSubmit` writes nothing when it is false |
| `Catalog.ChosenImage` | client/scripts/admin.js:169 | the chosen image is empty exactly when there is no non-empty upload and the image field is empty too, which is when the fallbacks of update and create apply |
| `Catalog.AvailabilityOf` | client/scripts/admin.js:178 | the text is "In Stock" exactly when the toggle is active |
| `Catalog.IsEditing` | client/scripts/admin.js:180 | `if (currentProductId)`: an id is set and is not 0; `HandleFormSubmit` updates exactly then and creates otherwise |
| `Catalog.SubmittedCatalog` | client/scripts/admin.js:169-207 | when editing, the catalog keeps its length; when creating, exactly one record with the clock id is appended after the unchanged catalog |
| `Catalog.CreateProduct` | client/scripts/admin.js:194-206 | exactly one record is appended at the end and all earlier records are unchanged; it has the clock id, the form's fields, `quantity` 0, and the default image path when no image was chosen |
| `Catalog.UpdateProduct` | client/scripts/admin.js:182-192 | catalog length is unchanged, and every record keeps its `id` and `quantity` |
| `Catalog.UpdateUnknownIdIsNoop` | client/scripts/admin.js:182-183 | updating an id the catalog does not hold leaves the catalog unchanged |
| `Catalog.UpdateRewritesFirstMatch` | client/scripts/admin.js:182-192 | only the first record with the id changes: it keeps `id` and `quantity`, takes the form's fields, and keeps its old image when the chosen image is empty; every other record is unchanged |
| `Catalog.DeleteProduct` | client/scripts/admin.js:269-272 | a record survives exactly when it was in the catalog with a different id |
| `Catalog.DeleteSplits` | client/scripts/admin.js:271 | deleting from two concatenated parts is deleting from each part, so the survivors keep their order |
| `Catalog.DeleteAbsentIsNoop` | client/scripts/admin.js:271 | deleting an absent id leaves the catalog unchanged |
| `Catalog.DeleteIdempotent` | client/scripts/admin.js:269-272 | deleting the same id twice equals deleting it once |
| `Catalog.DeleteUniqueIsRemoveAt` | client/scripts/admin.js:271 | with unique ids, deleting the id at position `i` removes exactly position `i` |
| `Catalog.CreateKeepsIdsUnique` | client/scripts/admin.js:196-206 | creating with a clock id no product has keeps catalog ids unique |
| `Catalog.UpdateKeepsIdsUnique` | client/scripts/admin.js:182-192 | updating keeps catalog ids unique |
| `Catalog.DeleteKeepsIdsUnique` | client/scripts/admin.js:269-272 | deleting keeps catalog ids unique |
| `Catalog.UpdateStats` | client/scripts/admin.js:277-281 | total is the catalog length; in-stock counts exactly the records whose availability is "In Stock"; out-of-stock counts exactly the others; the two sum to the total |
| `Catalog.AdminForm.HandleFormSubmit` | client/scripts/admin.js:164-213 | an empty required field changes neither the catalog nor the edited id; otherwise the catalog becomes the create-or-update result (edit when the current id is truthy) and the edited id is cleared; other keys and the uploaded image are untouched |
| `CartPage.CartCount` | client/scripts/product.controller.js:109-111 | the `reduce` sum of line quantities, which `updateCartCount` in cart.js at line 222 computes the same way; it is ≥ 0 when no quantity is negative, and `CartCountConcat`, `CartCountAt`, `CartCountBounds` and `AddRaisesCount` state its behaviour |
| `CartPage.CartCountConcat` | client/scripts/cart.js:222 | the badge count of concatenated carts is the sum of their counts |
| `CartPage.CartCountAt` | client/scripts/cart.js:222 | each line contributes exactly its quantity to the badge count |
| `CartPage.CartCountBounds` | client/scripts/cart.js:220-222 | with quantities ≥ 1 the badge is at least the number of lines, and it is 0 exactly for the empty cart |
| `CartPage.RemoveAtKeepsWellFormed` | client/scripts/cart.js:123 | splicing out one line keeps ids unique and quantities ≥ 1 |
| `CartPage.QuantityChanged` | client/scripts/cart.js:113-125 | never lengthens the cart; the lemmas below state the unknown-id, increase and decrease cases |
| `CartPage.QuantityChangeUnknownId` | client/scripts/cart.js:113-116 | a quantity change for an id not in the cart leaves the cart unchanged |
| `CartPage.IncreaseAddsOne` | client/scripts/cart.js:118-119 | `increase` adds exactly 1 to the first line with the id; length and all other lines are unchanged; the badge rises by 1 |
| `CartPage.DecreaseRemovesOne` | client/scripts/cart.js:120-124 | `decrease` removes the first matching line when it held ≤ 1 unit, otherwise lowers it by 1 with the others unchanged; with quantities ≥ 1 the badge drops by 1 |
| `CartPage.DecreaseLastUnitRemovesLine` | client/scripts/cart.js:120-124 | decreasing a line at quantity 1 leaves no line with that id, and the cart is one line shorter |
| `CartPage.QuantityChangeKeepsWellFormed` | client/scripts/cart.js:113-125 | from a cart with unique ids and quantities ≥ 1, every quantity change keeps both |
| `CartPage.QuantityChangeKeepsPositive` | client/scripts/cart.js:118-124 | from a cart with quantities ≥ 1, every quantity change keeps quantities ≥ 1, whatever the ids |
| `CartPage.HandleQuantityChange` | client/scripts/cart.js:108-131 | an unknown id writes nothing; otherwise the changed cart is written back, and products and orders are untouched |
| `CartPage.RemoveCartItem` | client/scripts/cart.js:139 | a line survives exactly when it was in the cart with a different id |
| `CartPage.RemoveSplits` | client/scripts/cart.js:139 | removal acts on each part of a split cart separately, so the survivors keep their order |
| `CartPage.RemoveAbsentIsNoop` | client/scripts/cart.js:139 | removing an absent id leaves the cart unchanged |
| `CartPage.RemoveIdempotent` | client/scripts/cart.js:134-145 | removing twice equals removing once |
| `CartPage.RemoveUniqueLine` | client/scripts/cart.js:139 | in a well-formed cart, removing line `i`'s id removes exactly that line, keeps the cart well formed and lowers the badge by its quantity |
| `CartPage.PriceValue` | client/scripts/cart.js:158 | `parseFloat(text)` with the NaN fallback to 0; `ResolvedPriceFromSnapshot` states that an unparseable line price counts as 0 |
| `CartPage.ResolvedPrice` | client/scripts/cart.js:157-158 | the line is charged either its own snapshot price or the price of a catalog product with its id; the two lemmas below say which |
| `CartPage.ResolvedPriceFromCatalog` | client/scripts/cart.js:157-158 | a line is priced from the first catalog product with its id, whatever its own snapshot price says |
| `CartPage.ResolvedPriceFromSnapshot` | client/scripts/cart.js:157-162 | a line whose id is not in the catalog is priced from its snapshot, and an unparseable price counts as 0 |
| `CartPage.Subtotal` | client/scripts/cart.js:156-164 | Σ resolved price × quantity over the cart; `SubtotalConcat`, `SubtotalNonNegative` and the `UpdateOrderSummary` loop state its behaviour |
| `CartPage.LineAmount` | client/scripts/cart.js:163 | resolved price × quantity, the amount one line adds; `Subtotal` and the `UpdateOrderSummary` loop sum it |
| `CartPage.SubtotalConcat` | client/scripts/cart.js:156-164 | the subtotal is additive over concatenated carts |
| `CartPage.SubtotalNonNegative` | client/scripts/cart.js:156-164 | when every line's resolved price and quantity are ≥ 0, the subtotal is ≥ 0 |
| `CartPage.SummaryOf` | client/scripts/cart.js:166-168 | tax is subtotal / 20 (5%), the delivery fee is 5, the total is subtotal × 1.05 + 5; a non-negative subtotal gives a total ≥ 5 |
| `CartPage.UpdateOrderSummary` | client/scripts/cart.js:148-168 | the accumulating loop computes the Σ price × quantity subtotal and its summary; an empty cart totals 5 |
| `CartPage.DeliveryInfoFilled` | client/scripts/cart.js:184 | true exactly when none of the five delivery fields is empty; `Checkout` rejects with the delivery alert exactly when it is false |
| `CartPage.Checkout` | client/scripts/cart.js:184-202 | rejects with the delivery-info alert iff a customer field is empty; rejects with the empty-cart alert iff the fields are filled and the cart is empty; otherwise the order has the prior cart as items, the customer, status "pending", and the given id and date |
| `CartPage.PlaceOrder` | client/scripts/cart.js:177-211 | a rejected checkout changes neither orders nor cart; a placed one appends exactly that order to the log and then writes an empty cart |
| `Storefront.InitCart` | client/scripts/product.controller.js:2-4 | after start-up the cart key is present, a present key is untouched, and the cart reads the same as before |
| `Storefront.InitializeCart` | client/scripts/product.controller.js:2-4 | the store's cart key becomes `InitCart` of its old value; other keys are untouched |
| `Storefront.Snapshot` | client/scripts/product.controller.js:94-101 | the line appended for a new product; `AddNewLine` states its fields |
| `Storefront.AddedToCart` | client/scripts/product.controller.js:83-104 | the cart grows by at most one line |
| `Storefront.AddUnknownProductIsNoop` | client/scripts/product.controller.js:86-87 | adding an id not in the catalog leaves the cart unchanged |
| `Storefront.AddExistingLine` | client/scripts/product.controller.js:89-92 | a product already in the cart raises its first line's quantity by 1; length and all other lines are unchanged |
| `Storefront.AddNewLine` | client/scripts/product.controller.js:93-101 | a product not yet in the cart appends one line at the end with quantity 1 and `name`/`price`/`currency`/`image` copied from the product's `Name`/`price`/`country`/`image` |
| `Storefront.AddKeepsWellFormed` | client/scripts/product.controller.js:89-101 | unique cart ids and quantities ≥ 1 survive `addToCart` |
| `Storefront.AddRaisesCount` | client/scripts/product.controller.js:89-101 | a successful add raises the badge count (Σ quantity) by exactly 1 |
| `Storefront.AddToCart` | client/scripts/product.controller.js:83-106 | an id not in the catalog writes nothing; otherwise the new cart is written back; products and orders are untouched |
| `Storefront.ToLowerCase` | client/scripts/product.controller.js:152 | keeps the length, turns each ASCII capital into the small letter 32 code points above it, and changes no other character |
| `Storefront.ToLowerCaseIdempotent` | client/scripts/product.controller.js:152 | lower-casing twice equals lower-casing once |
| `Storefront.Includes` | client/scripts/product.controller.js:164 | `String.prototype.includes`; `IncludesIffOccurs` states what it decides |
| `Storefront.IncludesIffOccurs` | client/scripts/product.controller.js:164 | `includes` holds iff the term occurs in the name at some position |
| `Storefront.CardShown` | client/scripts/product.controller.js:152-164 | the lower-cased name includes the lower-cased term; `CardShownIff` and `CardShownIgnoresCase` state its behaviour |
| `Storefront.CardShownIff` | client/scripts/product.controller.js:159-169 | a card is shown iff the lower-cased term occurs in the lower-cased name; an empty term shows every card; a name matches its own card; a term longer than the name hides the card |
| `Storefront.CardShownIgnoresCase` | client/scripts/product.controller.js:152-164 | lower-casing the name or the term beforehand does not change which cards are shown |

## Left out

- DOM rendering is not modelled: `loadProducts`, `displayProducts`, `displayCartItems`, the product and cart markup, the availability toggle's classes and the `.cart-count` elements. Derived views are the functions `UpdateStats`, `CartCount` and `SummaryOf`.
- The modal state changes are not modelled: `openModal`, `closeModal` (apart from its reset of `currentProductId` at the end of a submit) and `handleImageUpload`'s `FileReader` callback. `AdminForm`'s fields are taken as those functions leave them.
- Dark mode is not modelled (`initDarkMode`, `toggleDarkMode`, `updateDarkModeButton` in every file). It is a UI flag.
- client/scripts/landing.js is not part of this model: its `updateCartCount` is the same `reduce` as `CartPage.CartCount`.
- JSON serialisation is not modelled. A stored value is taken to hold records of the declared shape, and the model has no untyped data.
- Host calls become parameters or outcomes. `Date.now()` and `new Date().toISOString()` are the parameters `now` and `date`. Alerts are the `CheckoutOutcome` values or "nothing written". The `confirm` before a delete is not modelled: `DeleteProduct` is the confirmed deletion. The redirect after checkout is left out.
- `CartPage.PriceValue`: `parseFloat` is the parameter `parse`, with NaN as `None`. Its prefix-parsing rules live in the JavaScript engine.
- `CartPage.UpdateOrderSummary`: money is exact `real`, not IEEE doubles, and `toFixed(2)` rounding is not modelled. So a subtotal of 19.99 gives tax 0.9995 and total 25.9895, which the page shows rounded as 1.00 and 25.99.
- `Storefront.ToLowerCase`: only the ASCII capitals A–Z are lowered. The Unicode case mapping of other letters belongs to the JavaScript engine.
- `Storefront.CardShownIff`: `toLowerCase` is modelled for the ASCII letters A–Z only. Unicode case mapping belongs to the JavaScript engine.
- `CartPage.PlaceOrder`: the two writes at checkout (order log, then cart) happen within one method. An interruption between them cannot occur in the model.
- Cross-tab races are not modelled. Two pages writing the same key is last-write-wins in the storage medium, not logic in these files.
- The second start-up handler (client/scripts/product.controller.js:191-201) is not modelled. It calls the commented-out `initMobileMenu`.
