/** The three stored collections of the storefront and the records in them, keeping
    the field names the JavaScript uses: catalog records say `Name` and `country`,
    cart lines say `name` and `currency`. */
module Records {
  import opened Wrappers
  import opened Seqs

  /** The availability text a product is considered to be in stock with. */
  const IN_STOCK: string := "In Stock"
  const OUT_OF_STOCK: string := "Out of Stock"

  /** A catalog record. `price` is the text typed into the admin form; it is only
      parsed as a number when the order summary is computed. */
  datatype Product = Product(
    id: int,
    Name: string,
    price: string,
    country: string,
    availability: string,
    category: string,
    image: string,
    quantity: int)

  /** A cart line: a snapshot of a product taken when it was first added. */
  datatype CartLine = CartLine(
    id: int,
    name: string,
    price: string,
    currency: string,
    quantity: int,
    image: string)

  datatype Customer = Customer(
    fullName: string,
    phone: string,
    address: string,
    city: string,
    region: string)

  datatype Order = Order(
    id: int,
    date: string,
    items: seq<CartLine>,
    customer: Customer,
    status: string)

  /** The browser's key-value storage, restricted to the three keys the core uses.
      `None` is a key that has never been written. */
  class Store {
    var products: Option<seq<Product>>
    var cart: Option<seq<CartLine>>
    var orders: Option<seq<Order>>

    constructor (products: Option<seq<Product>>, cart: Option<seq<CartLine>>, orders: Option<seq<Order>>)
      ensures this.products == products && this.cart == cart && this.orders == orders
    {
      this.products := products;
      this.cart := cart;
      this.orders := orders;
    }
  }

  /** `JSON.parse(localStorage.getItem(key)) || []`: an absent key reads as empty. */
  function Load<T>(slot: Option<seq<T>>): seq<T> {
    slot.GetOr([])
  }

  function ProductId(p: Product): int { p.id }
  function LineId(l: CartLine): int { l.id }

  /** `p => p.id === id` */
  function ProductHasId(id: int): Product -> bool { (p: Product) => p.id == id }

  /** `item => item.id === id` */
  function LineHasId(id: int): CartLine -> bool { (l: CartLine) => l.id == id }

  /** `products.findIndex(p => p.id === id)`, also what `products.find` returns. */
  function ProductIndex(products: seq<Product>, id: int): (r: Option<nat>)
    ensures r.Some? ==> r.value < |products| && products[r.value].id == id
    ensures r.Some? ==> forall j :: 0 <= j < r.value ==> products[j].id != id
    ensures r.None? <==> forall j :: 0 <= j < |products| ==> products[j].id != id
  {
    FirstIndex(products, ProductHasId(id))
  }

  /** `cart.findIndex(item => item.id === id)`, also what `cart.find` returns. */
  function LineIndex(cart: seq<CartLine>, id: int): (r: Option<nat>)
    ensures r.Some? ==> r.value < |cart| && cart[r.value].id == id
    ensures r.Some? ==> forall j :: 0 <= j < r.value ==> cart[j].id != id
    ensures r.None? <==> forall j :: 0 <= j < |cart| ==> cart[j].id != id
  {
    FirstIndex(cart, LineHasId(id))
  }

  /** `ProductIndex` is `i` exactly when `i` is the first position holding `id`. */
  lemma ProductIndexIs(products: seq<Product>, id: int, i: nat)
    requires i < |products| && products[i].id == id
    requires forall j :: 0 <= j < i ==> products[j].id != id
    ensures ProductIndex(products, id) == Some(i)
  {
  }

  /** `LineIndex` is `i` exactly when `i` is the first position holding `id`. */
  lemma LineIndexIs(cart: seq<CartLine>, id: int, i: nat)
    requires i < |cart| && cart[i].id == id
    requires forall j :: 0 <= j < i ==> cart[j].id != id
    ensures LineIndex(cart, id) == Some(i)
  {
  }

  /** The catalog invariant: no two products share an id. */
  predicate UniqueIds(products: seq<Product>) {
    UniqueBy(products, ProductId)
  }

  /** No two cart lines share an id. */
  predicate UniqueLineIds(cart: seq<CartLine>) {
    UniqueBy(cart, LineId)
  }
}
