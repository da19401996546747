/** The cart page's rules (client/scripts/cart.js): quantity changes, line removal,
    the badge count, the order summary and checkout. */
module CartPage {
  import opened Wrappers
  import opened Seqs
  import opened Records

  const INCREASE: string := "increase"
  const DECREASE: string := "decrease"

  /** The fixed tax rate (5%) and delivery fee of the order summary. */
  const TAX_RATE: real := 0.05
  const DELIVERY_FEE: real := 5.0

  /** The status every new order gets. */
  const PENDING: string := "pending"

  // ---------------------------------------------------------------------------
  // Cart invariants and the badge count

  /** Every line holds at least one unit. */
  predicate QuantitiesPositive(cart: seq<CartLine>) {
    forall i :: 0 <= i < |cart| ==> cart[i].quantity >= 1
  }

  /** The shape the storefront's own operations keep a cart in. */
  predicate WellFormedCart(cart: seq<CartLine>) {
    UniqueLineIds(cart) && QuantitiesPositive(cart)
  }

  /** `updateCartCount`: `cart.reduce((sum, item) => sum + item.quantity, 0)`. */
  function CartCount(cart: seq<CartLine>): (r: int)
    ensures (forall i :: 0 <= i < |cart| ==> cart[i].quantity >= 0) ==> r >= 0
  {
    if cart == [] then 0 else cart[0].quantity + CartCount(cart[1..])
  }

  /** The badge count of two carts laid end to end is the sum of their counts. */
  lemma {:induction false} CartCountConcat(a: seq<CartLine>, b: seq<CartLine>)
    ensures CartCount(a + b) == CartCount(a) + CartCount(b)
  {
    if a == [] {
      assert a + b == b;
    } else {
      assert (a + b)[1..] == a[1..] + b;
      CartCountConcat(a[1..], b);
    }
  }

  /** Line `i` contributes exactly its quantity to the badge count. */
  lemma CartCountAt(cart: seq<CartLine>, i: nat)
    requires i < |cart|
    ensures CartCount(cart) == CartCount(cart[..i]) + cart[i].quantity + CartCount(cart[i + 1..])
  {
    var prefix, rest := cart[..i], cart[i..];
    assert cart == prefix + rest;
    CartCountConcat(prefix, rest);
    assert rest[1..] == cart[i + 1..];
  }

  /** With positive quantities the badge is 0 exactly for the empty cart and is at
      least the number of lines. */
  lemma {:induction false} CartCountBounds(cart: seq<CartLine>)
    requires QuantitiesPositive(cart)
    ensures CartCount(cart) >= |cart|
    ensures CartCount(cart) == 0 <==> cart == []
  {
    if cart != [] {
      CartCountBounds(cart[1..]);
    }
  }

  /** Removing position `i` keeps a well-formed cart well formed. */
  lemma RemoveAtKeepsWellFormed(cart: seq<CartLine>, i: nat)
    requires WellFormedCart(cart) && i < |cart|
    ensures WellFormedCart(cart[..i] + cart[i + 1..])
  {
  }

  // ---------------------------------------------------------------------------
  // handleQuantityChange

  /** The cart `handleQuantityChange` produces: `increase` adds one unit to the
      first line with the id, `decrease` takes one away and drops the line once
      its quantity is no longer positive; any other action changes nothing. */
  function QuantityChanged(cart: seq<CartLine>, id: int, action: string): (r: seq<CartLine>)
    ensures |r| <= |cart|
  {
    match LineIndex(cart, id)
    case None => cart
    case Some(i) =>
      if action == INCREASE then cart[i := cart[i].(quantity := cart[i].quantity + 1)]
      else if action == DECREASE then
        if cart[i].quantity - 1 <= 0 then cart[..i] + cart[i + 1..]
        else cart[i := cart[i].(quantity := cart[i].quantity - 1)]
      else cart
  }

  /** A quantity change for an id the cart does not hold changes nothing. */
  lemma QuantityChangeUnknownId(cart: seq<CartLine>, id: int, action: string)
    requires forall j :: 0 <= j < |cart| ==> cart[j].id != id
    ensures QuantityChanged(cart, id, action) == cart
  {
  }

  /** `increase` adds exactly one unit to the first line with the id, and the
      badge count goes up by one; every other line is untouched. */
  lemma IncreaseAddsOne(cart: seq<CartLine>, id: int, i: nat)
    requires i < |cart| && cart[i].id == id
    requires forall j :: 0 <= j < i ==> cart[j].id != id
    ensures var r := QuantityChanged(cart, id, INCREASE);
      && |r| == |cart|
      && r[i] == cart[i].(quantity := cart[i].quantity + 1)
      && (forall j :: 0 <= j < |r| && j != i ==> r[j] == cart[j])
      && CartCount(r) == CartCount(cart) + 1
  {
    LineIndexIs(cart, id, i);
    var r := QuantityChanged(cart, id, INCREASE);
    CartCountAt(cart, i);
    CartCountAt(r, i);
    assert r[..i] == cart[..i] && r[i + 1..] == cart[i + 1..];
  }

  /** `decrease` takes one unit from the first line with the id; a line that
      held one unit (or fewer) disappears instead of staying at zero. In a cart with
      positive quantities the badge count goes down by one. */
  lemma DecreaseRemovesOne(cart: seq<CartLine>, id: int, i: nat)
    requires i < |cart| && cart[i].id == id
    requires forall j :: 0 <= j < i ==> cart[j].id != id
    ensures var r := QuantityChanged(cart, id, DECREASE);
      && (cart[i].quantity <= 1 ==> r == cart[..i] + cart[i + 1..])
      && (cart[i].quantity > 1 ==>
            |r| == |cart| && r[i] == cart[i].(quantity := cart[i].quantity - 1)
            && forall j :: 0 <= j < |r| && j != i ==> r[j] == cart[j])
      && (QuantitiesPositive(cart) ==> CartCount(r) == CartCount(cart) - 1)
  {
    LineIndexIs(cart, id, i);
    var r := QuantityChanged(cart, id, DECREASE);
    CartCountAt(cart, i);
    if cart[i].quantity <= 1 {
      CartCountConcat(cart[..i], cart[i + 1..]);
    } else {
      CartCountAt(r, i);
      assert r[..i] == cart[..i] && r[i + 1..] == cart[i + 1..];
    }
  }

  /** Decreasing a line that holds one unit leaves no line with that id behind
      in a cart whose ids are unique. */
  lemma DecreaseLastUnitRemovesLine(cart: seq<CartLine>, i: nat)
    requires UniqueLineIds(cart) && i < |cart| && cart[i].quantity == 1
    ensures var r := QuantityChanged(cart, cart[i].id, DECREASE);
      |r| == |cart| - 1 && forall j :: 0 <= j < |r| ==> r[j].id != cart[i].id
  {
  }

  /** Quantity changes keep a well-formed cart well formed: ids stay unique and no
      line with a non-positive quantity is ever left behind. */
  lemma QuantityChangeKeepsWellFormed(cart: seq<CartLine>, id: int, action: string)
    requires WellFormedCart(cart)
    ensures WellFormedCart(QuantityChanged(cart, id, action))
  {
  }

  /** Quantity changes alone keep every line at one unit or more, whatever the ids. */
  lemma QuantityChangeKeepsPositive(cart: seq<CartLine>, id: int, action: string)
    requires QuantitiesPositive(cart)
    ensures QuantitiesPositive(QuantityChanged(cart, id, action))
  {
  }

  /** `handleQuantityChange` on the stored cart: an id the cart does not hold
      writes nothing; otherwise the changed cart is written back. */
  method HandleQuantityChange(store: Store, itemId: int, action: string)
    modifies store
    ensures LineIndex(Load(old(store.cart)), itemId).None? ==> store.cart == old(store.cart)
    ensures LineIndex(Load(old(store.cart)), itemId).Some? ==>
      store.cart == Some(QuantityChanged(Load(old(store.cart)), itemId, action))
    ensures store.products == old(store.products) && store.orders == old(store.orders)
  {
    var cart := Load(store.cart);
    var itemIndex := LineIndex(cart, itemId);
    if itemIndex.None? {
      return;
    }
    store.cart := Some(QuantityChanged(cart, itemId, action));
  }

  // ---------------------------------------------------------------------------
  // removeCartItem

  /** `removeCartItem`: the cart without any line whose id is `id`. */
  function RemoveCartItem(cart: seq<CartLine>, id: int): (r: seq<CartLine>)
    ensures forall l :: l in r <==> l in cart && l.id != id
  {
    Filter(cart, (l: CartLine) => l.id != id)
  }

  /** Removal keeps the other lines in their order. */
  lemma RemoveSplits(a: seq<CartLine>, b: seq<CartLine>, id: int)
    ensures RemoveCartItem(a + b, id) == RemoveCartItem(a, id) + RemoveCartItem(b, id)
  {
    FilterConcat(a, b, (l: CartLine) => l.id != id);
  }

  /** Removing an id the cart does not hold is a no-op. */
  lemma RemoveAbsentIsNoop(cart: seq<CartLine>, id: int)
    requires forall j :: 0 <= j < |cart| ==> cart[j].id != id
    ensures RemoveCartItem(cart, id) == cart
  {
    FilterAllKept(cart, (l: CartLine) => l.id != id);
  }

  /** Removing twice is removing once. */
  lemma RemoveIdempotent(cart: seq<CartLine>, id: int)
    ensures RemoveCartItem(RemoveCartItem(cart, id), id) == RemoveCartItem(cart, id)
  {
    FilterIdempotent(cart, (l: CartLine) => l.id != id);
  }

  /** In a well-formed cart, removing the id of line `i` removes exactly that
      line, keeps the cart well formed and lowers the badge by its quantity. */
  lemma RemoveUniqueLine(cart: seq<CartLine>, i: nat)
    requires WellFormedCart(cart) && i < |cart|
    ensures var r := RemoveCartItem(cart, cart[i].id);
      && r == cart[..i] + cart[i + 1..]
      && WellFormedCart(r)
      && CartCount(r) == CartCount(cart) - cart[i].quantity
  {
    var id := cart[i].id;
    FilterDropsUniqueAt(cart, (l: CartLine) => l.id != id, LineId, i);
    RemoveAtKeepsWellFormed(cart, i);
    CartCountAt(cart, i);
    CartCountConcat(cart[..i], cart[i + 1..]);
  }

  // ---------------------------------------------------------------------------
  // updateOrderSummary

  /** `parseFloat(text) || 0`, the parser being a parameter: `None` stands for NaN. */
  function PriceValue(parse: string -> Option<real>, text: string): real {
    parse(text).GetOr(0.0)
  }

  /** The price a line is charged at: that of the first catalog product with the
      line's id, otherwise the line's own snapshot price. */
  function ResolvedPrice(line: CartLine, products: seq<Product>, parse: string -> Option<real>): (r: real)
    ensures r == PriceValue(parse, line.price)
      || exists k :: 0 <= k < |products| && products[k].id == line.id && r == PriceValue(parse, products[k].price)
  {
    var text :=
      match ProductIndex(products, line.id)
      case Some(k) => products[k].price
      case None => line.price;
    PriceValue(parse, text)
  }

  /** The live catalog price wins over the snapshot: when product `k` is the first
      with the line's id, its price is used whatever the line says. */
  lemma ResolvedPriceFromCatalog(line: CartLine, products: seq<Product>, parse: string -> Option<real>, k: nat)
    requires k < |products| && products[k].id == line.id
    requires forall j :: 0 <= j < k ==> products[j].id != line.id
    ensures ResolvedPrice(line, products, parse) == PriceValue(parse, products[k].price)
    ensures forall p :: ResolvedPrice(line.(price := p), products, parse) == ResolvedPrice(line, products, parse)
  {
  }

  /** A line whose product has left the catalog is charged its snapshot price, and
      an unparseable price counts as zero. */
  lemma ResolvedPriceFromSnapshot(line: CartLine, products: seq<Product>, parse: string -> Option<real>)
    requires forall j :: 0 <= j < |products| ==> products[j].id != line.id
    ensures ResolvedPrice(line, products, parse) == PriceValue(parse, line.price)
    ensures parse(line.price).None? ==> ResolvedPrice(line, products, parse) == 0.0
  {
  }

  /** What one line adds to the subtotal. */
  function LineAmount(line: CartLine, products: seq<Product>, parse: string -> Option<real>): real {
    ResolvedPrice(line, products, parse) * (line.quantity as real)
  }

  /** Σ price × quantity over the cart. */
  function Subtotal(cart: seq<CartLine>, products: seq<Product>, parse: string -> Option<real>): real {
    if cart == [] then 0.0
    else Subtotal(cart[..|cart| - 1], products, parse) + LineAmount(cart[|cart| - 1], products, parse)
  }

  /** The subtotal of two carts laid end to end is the sum of their subtotals. */
  lemma {:induction false} SubtotalConcat(a: seq<CartLine>, b: seq<CartLine>, products: seq<Product>,
                                          parse: string -> Option<real>)
    ensures Subtotal(a + b, products, parse) == Subtotal(a, products, parse) + Subtotal(b, products, parse)
  {
    if b != [] {
      assert (a + b)[..|a + b| - 1] == a + b[..|b| - 1];
      assert (a + b)[|a + b| - 1] == b[|b| - 1];
      SubtotalConcat(a, b[..|b| - 1], products, parse);
    } else {
      assert a + b == a;
    }
  }

  /** With no negative prices and no negative quantities the subtotal is not
      negative either. */
  lemma {:induction false} SubtotalNonNegative(cart: seq<CartLine>, products: seq<Product>,
                                               parse: string -> Option<real>)
    requires forall i :: 0 <= i < |cart| ==> ResolvedPrice(cart[i], products, parse) >= 0.0
    requires forall i :: 0 <= i < |cart| ==> cart[i].quantity >= 0
    ensures Subtotal(cart, products, parse) >= 0.0
  {
    if cart != [] {
      var last := cart[|cart| - 1];
      SubtotalNonNegative(cart[..|cart| - 1], products, parse);
      assert ResolvedPrice(last, products, parse) >= 0.0;
      assert last.quantity as real >= 0.0;
    }
  }

  /** The four figures of the order summary. */
  datatype OrderSummary = OrderSummary(subtotal: real, tax: real, deliveryFee: real, total: real)

  /** Tax, delivery fee and total for a given subtotal. */
  function SummaryOf(subtotal: real): (r: OrderSummary)
    ensures r.subtotal == subtotal && r.deliveryFee == DELIVERY_FEE
    ensures r.tax == subtotal / 20.0
    ensures r.total == subtotal * 1.05 + 5.0
    ensures subtotal >= 0.0 ==> r.total >= 5.0 && r.tax <= r.subtotal
  {
    var tax := subtotal * TAX_RATE;
    OrderSummary(subtotal, tax, DELIVERY_FEE, subtotal + tax + DELIVERY_FEE)
  }

  /** `updateOrderSummary`'s arithmetic: a loop over the cart accumulating the
      subtotal, then the fixed tax and delivery fee. */
  method UpdateOrderSummary(cart: seq<CartLine>, products: seq<Product>, parse: string -> Option<real>)
    returns (summary: OrderSummary)
    ensures summary == SummaryOf(Subtotal(cart, products, parse))
    ensures cart == [] ==> summary.total == DELIVERY_FEE
  {
    var subtotal := 0.0;
    var i := 0;
    while i < |cart|
      invariant 0 <= i <= |cart|
      invariant subtotal == Subtotal(cart[..i], products, parse)
    {
      var item := cart[i];
      var price := ResolvedPrice(item, products, parse);
      subtotal := subtotal + price * (item.quantity as real);
      assert cart[..i + 1][..i] == cart[..i];
      i := i + 1;
    }
    assert cart[..|cart|] == cart;
    var tax := subtotal * TAX_RATE;
    var deliveryFee := DELIVERY_FEE;
    var total := subtotal + tax + deliveryFee;
    summary := OrderSummary(subtotal, tax, deliveryFee, total);
  }

  // ---------------------------------------------------------------------------
  // placeOrder

  /** None of the five delivery fields is empty. */
  predicate DeliveryInfoFilled(c: Customer) {
    c.fullName != "" && c.phone != "" && c.address != "" && c.city != "" && c.region != ""
  }

  /** How a checkout attempt ends: one of the two blocking alerts, or an order. */
  datatype CheckoutOutcome = MissingDeliveryInfo | EmptyCart | Placed(order: Order)

  /** `placeOrder`'s decision, `now` and `date` standing for `Date.now()` and the
      ISO timestamp. The delivery fields are checked before the cart. */
  function Checkout(c: Customer, cart: seq<CartLine>, now: int, date: string): (r: CheckoutOutcome)
    ensures r.MissingDeliveryInfo? <==> !DeliveryInfoFilled(c)
    ensures r.EmptyCart? <==> DeliveryInfoFilled(c) && cart == []
    ensures r.Placed? <==> DeliveryInfoFilled(c) && cart != []
    ensures r.Placed? ==>
      r.order.items == cart && r.order.customer == c && r.order.status == PENDING
      && r.order.id == now && r.order.date == date
  {
    if !DeliveryInfoFilled(c) then MissingDeliveryInfo
    else if |cart| == 0 then EmptyCart
    else Placed(Order(id := now, date := date, items := cart, customer := c, status := PENDING))
  }

  /** `placeOrder` on the store: a rejected checkout writes nothing; an accepted
      one appends exactly one order to the log and then empties the cart. */
  method PlaceOrder(store: Store, c: Customer, now: int, date: string) returns (outcome: CheckoutOutcome)
    modifies store
    ensures outcome == Checkout(c, Load(old(store.cart)), now, date)
    ensures !outcome.Placed? ==> store.orders == old(store.orders) && store.cart == old(store.cart)
    ensures outcome.Placed? ==>
      store.orders == Some(Load(old(store.orders)) + [outcome.order]) && store.cart == Some([])
    ensures store.products == old(store.products)
  {
    if !DeliveryInfoFilled(c) {
      return MissingDeliveryInfo;
    }
    var cart := Load(store.cart);
    if |cart| == 0 {
      return EmptyCart;
    }
    var order := Order(id := now, date := date, items := cart, customer := c, status := PENDING);
    var orders := Load(store.orders);
    orders := orders + [order];
    store.orders := Some(orders);
    store.cart := Some([]);
    outcome := Placed(order);
  }
}
