/** The storefront's rules (client/scripts/product.controller.js): cart start-up,
    adding a product to the cart, and the search filter over product cards. */
module Storefront {
  import opened Wrappers
  import opened Seqs
  import opened Records
  import opened CartPage

  // ---------------------------------------------------------------------------
  // Cart start-up

  /** The script's first statement: an absent `cart` key is written as `[]`. */
  function InitCart(slot: Option<seq<CartLine>>): (r: Option<seq<CartLine>>)
    ensures r.Some?
    ensures slot.Some? ==> r == slot
    ensures Load(r) == Load(slot)
  {
    if slot.None? then Some([]) else slot
  }

  /** The start-up statement applied to the store. */
  method InitializeCart(store: Store)
    modifies store
    ensures store.cart == InitCart(old(store.cart))
    ensures store.products == old(store.products) && store.orders == old(store.orders)
  {
    if store.cart.None? {
      store.cart := Some([]);
    }
  }

  // ---------------------------------------------------------------------------
  // addToCart

  /** The line appended for a product that is not yet in the cart. */
  function Snapshot(p: Product): CartLine {
    CartLine(id := p.id, name := p.Name, price := p.price, currency := p.country, quantity := 1, image := p.image)
  }

  /** The cart `addToCart` produces. A product missing from the catalog changes
      nothing; a product already in the cart gets one more unit on its first line;
      otherwise a snapshot line with one unit is appended. Availability is not
      consulted here: only the disabled button keeps out-of-stock products out. */
  function AddedToCart(products: seq<Product>, cart: seq<CartLine>, productId: int): (r: seq<CartLine>)
    ensures |cart| <= |r| <= |cart| + 1
  {
    match ProductIndex(products, productId)
    case None => cart
    case Some(k) =>
      match LineIndex(cart, productId)
      case Some(i) => cart[i := cart[i].(quantity := cart[i].quantity + 1)]
      case None => cart + [Snapshot(products[k])]
  }

  /** Adding an id the catalog does not hold leaves the cart as it was. */
  lemma AddUnknownProductIsNoop(products: seq<Product>, cart: seq<CartLine>, productId: int)
    requires forall j :: 0 <= j < |products| ==> products[j].id != productId
    ensures AddedToCart(products, cart, productId) == cart
  {
  }

  /** Adding a product whose line `i` is the first with its id raises that line's
      quantity by one and leaves every other line alone. */
  lemma AddExistingLine(products: seq<Product>, cart: seq<CartLine>, productId: int, i: nat)
    requires exists k :: 0 <= k < |products| && products[k].id == productId
    requires i < |cart| && cart[i].id == productId
    requires forall j :: 0 <= j < i ==> cart[j].id != productId
    ensures var r := AddedToCart(products, cart, productId);
      && |r| == |cart|
      && r[i] == cart[i].(quantity := cart[i].quantity + 1)
      && forall j :: 0 <= j < |r| && j != i ==> r[j] == cart[j]
  {
  }

  /** Adding a product that has no line yet appends one line at the end, copying
      `Name`, `price`, `country` and `image` of the first catalog product with the
      id into `name`, `price`, `currency` and `image`, with one unit. */
  lemma AddNewLine(products: seq<Product>, cart: seq<CartLine>, productId: int, k: nat)
    requires k < |products| && products[k].id == productId
    requires forall j :: 0 <= j < k ==> products[j].id != productId
    requires forall j :: 0 <= j < |cart| ==> cart[j].id != productId
    ensures var r := AddedToCart(products, cart, productId);
      && |r| == |cart| + 1 && r[..|cart|] == cart
      && r[|cart|].id == productId && r[|cart|].quantity == 1
      && r[|cart|].name == products[k].Name && r[|cart|].price == products[k].price
      && r[|cart|].currency == products[k].country && r[|cart|].image == products[k].image
  {
  }

  /** `addToCart` keeps a well-formed cart well formed: ids stay unique and every
      quantity stays at least one. */
  lemma AddKeepsWellFormed(products: seq<Product>, cart: seq<CartLine>, productId: int)
    requires WellFormedCart(cart)
    ensures WellFormedCart(AddedToCart(products, cart, productId))
  {
  }

  /** A successful add raises the badge count by exactly one. */
  lemma AddRaisesCount(products: seq<Product>, cart: seq<CartLine>, productId: int)
    requires exists k :: 0 <= k < |products| && products[k].id == productId
    ensures CartCount(AddedToCart(products, cart, productId)) == CartCount(cart) + 1
  {
    var k :| 0 <= k < |products| && products[k].id == productId;
    assert ProductHasId(productId)(products[k]);
    var r := AddedToCart(products, cart, productId);
    match LineIndex(cart, productId)
    case Some(i) =>
      CartCountAt(cart, i);
      CartCountAt(r, i);
      assert r[..i] == cart[..i] && r[i + 1..] == cart[i + 1..];
    case None =>
      CartCountConcat(cart, [Snapshot(products[ProductIndex(products, productId).value])]);
      assert CartCount([r[|cart|]]) == 1;
  }

  /** `addToCart` on the store: a product missing from the catalog writes nothing;
      otherwise the new cart is written back. */
  method AddToCart(store: Store, productId: int)
    modifies store
    ensures ProductIndex(Load(old(store.products)), productId).None? ==> store.cart == old(store.cart)
    ensures ProductIndex(Load(old(store.products)), productId).Some? ==>
      store.cart == Some(AddedToCart(Load(old(store.products)), Load(old(store.cart)), productId))
    ensures store.products == old(store.products) && store.orders == old(store.orders)
  {
    var products := Load(store.products);
    var cart := Load(store.cart);
    var product := ProductIndex(products, productId);
    if product.None? {
      return;
    }
    var existingItem := LineIndex(cart, productId);
    if existingItem.Some? {
      var i := existingItem.value;
      cart := cart[i := cart[i].(quantity := cart[i].quantity + 1)];
    } else {
      cart := cart + [Snapshot(products[product.value])];
    }
    store.cart := Some(cart);
  }

  // ---------------------------------------------------------------------------
  // filterProducts

  /** `toLowerCase` on one character, for the ASCII letters. */
  function LowerChar(ch: char): char {
    if 'A' <= ch <= 'Z' then (ch as int + 32) as char else ch
  }

  /** `toLowerCase` on a string: same length, each ASCII capital replaced by its
      small letter, and every other character unchanged. */
  function ToLowerCase(s: string): (r: string)
    ensures |r| == |s|
    ensures forall i :: 0 <= i < |r| ==> !('A' <= r[i] <= 'Z')
    ensures forall i :: 0 <= i < |s| && !('A' <= s[i] <= 'Z') ==> r[i] == s[i]
    ensures forall i :: 0 <= i < |s| && 'A' <= s[i] <= 'Z' ==> r[i] as int == s[i] as int + 32
  {
    seq(|s|, i requires 0 <= i < |s| => LowerChar(s[i]))
  }

  /** Lower-casing twice is lower-casing once. */
  lemma ToLowerCaseIdempotent(s: string)
    ensures ToLowerCase(ToLowerCase(s)) == ToLowerCase(s)
  {
  }

  /** `s.includes(t)`: try every starting position from the left. */
  function Includes(s: string, t: string): bool
    decreases |s|
  {
    if |s| < |t| then false
    else if s[..|t|] == t then true
    else Includes(s[1..], t)
  }

  /** `t` occurs in `s` starting at position `k`. */
  predicate OccursAt(s: string, t: string, k: nat) {
    k + |t| <= |s| && s[k..k + |t|] == t
  }

  /** `Includes` holds exactly when `t` occurs in `s` at some position. */
  lemma {:induction false} IncludesIffOccurs(s: string, t: string)
    ensures Includes(s, t) <==> exists k: nat :: OccursAt(s, t, k)
  {
    if |s| < |t| {
    } else if s[..|t|] == t {
      assert OccursAt(s, t, 0);
    } else {
      var tail := s[1..];
      IncludesIffOccurs(tail, t);
      forall k: nat | OccursAt(tail, t, k) ensures OccursAt(s, t, k + 1) {
        assert s[k + 1..k + 1 + |t|] == tail[k..k + |t|];
      }
      forall k: nat | OccursAt(s, t, k) ensures k > 0 && OccursAt(tail, t, k - 1) {
        if k > 0 {
          assert tail[k - 1..k - 1 + |t|] == s[k..k + |t|];
        }
      }
    }
  }

  /** The search filter's decision for one card: its lower-cased product name
      contains the lower-cased search term. */
  predicate CardShown(name: string, searchTerm: string) {
    Includes(ToLowerCase(name), ToLowerCase(searchTerm))
  }

  /** A card is shown exactly when the lower-cased term occurs in the lower-cased
      name; an empty term shows every card and a name always finds its own card,
      whatever the letters' case. */
  lemma CardShownIff(name: string, searchTerm: string)
    ensures CardShown(name, searchTerm) <==>
      exists k: nat :: OccursAt(ToLowerCase(name), ToLowerCase(searchTerm), k)
    ensures CardShown(name, "")
    ensures CardShown(name, name)
    ensures |searchTerm| > |name| ==> !CardShown(name, searchTerm)
  {
    IncludesIffOccurs(ToLowerCase(name), ToLowerCase(searchTerm));
    IncludesIffOccurs(ToLowerCase(name), ToLowerCase(""));
    IncludesIffOccurs(ToLowerCase(name), ToLowerCase(name));
    assert OccursAt(ToLowerCase(name), ToLowerCase(name), 0);
    assert OccursAt(ToLowerCase(name), ToLowerCase(""), 0);
  }

  /** The filter ignores case: lower-casing the name or the term first changes
      nothing. */
  lemma CardShownIgnoresCase(name: string, searchTerm: string)
    ensures CardShown(ToLowerCase(name), searchTerm) == CardShown(name, searchTerm)
    ensures CardShown(name, ToLowerCase(searchTerm)) == CardShown(name, searchTerm)
  {
    ToLowerCaseIdempotent(name);
    ToLowerCaseIdempotent(searchTerm);
  }
}
