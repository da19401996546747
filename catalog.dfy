/** The admin console's catalog rules (client/scripts/admin.js): create or update a
    product from the form, delete by id, and the stock statistics. */
module Catalog {
  import opened Wrappers
  import opened Seqs
  import opened Records

  /** The image a newly created product gets when none was supplied. */
  const DEFAULT_IMAGE: string := "../images/default-product.jpg"

  /** The values `handleFormSubmit` reads from the product form. `rollerActive` is
      whether the availability toggle is switched on. */
  datatype ProductForm = ProductForm(
    productName: string,
    productPrice: string,
    productCountry: string,
    productCategory: string,
    productImage: string,
    rollerActive: bool)

  /** None of name, price, currency and category is the empty string. */
  predicate RequiredFieldsFilled(f: ProductForm) {
    f.productName != "" && f.productPrice != "" && f.productCountry != "" && f.productCategory != ""
  }

  /** `uploadedImageData || productImage.value`: the uploaded data when there is any. */
  function ChosenImage(uploaded: Option<string>, field: string): (r: string)
    ensures r == "" <==> (uploaded.None? || uploaded.value == "") && field == ""
  {
    if uploaded.Some? && uploaded.value != "" then uploaded.value else field
  }

  /** The availability text the toggle stands for. */
  function AvailabilityOf(rollerActive: bool): (r: string)
    ensures r == IN_STOCK <==> rollerActive
  {
    if rollerActive then IN_STOCK else OUT_OF_STOCK
  }

  /** `if (currentProductId)`: the form edits a product when an id other than 0 is set. */
  predicate IsEditing(currentProductId: Option<int>) {
    currentProductId.Some? && currentProductId.value != 0
  }

  /** The catalog after adding the product described by the form under the id `now`. */
  function CreateProduct(products: seq<Product>, f: ProductForm, image: string, now: int): (r: seq<Product>)
    ensures |r| == |products| + 1 && r[..|products|] == products
    ensures r[|products|].id == now && r[|products|].quantity == 0
    ensures r[|products|].Name == f.productName && r[|products|].price == f.productPrice
    ensures r[|products|].country == f.productCountry && r[|products|].category == f.productCategory
    ensures r[|products|].availability == AvailabilityOf(f.rollerActive)
    ensures r[|products|].image == (if image == "" then DEFAULT_IMAGE else image)
  {
    products + [Product(
      id := now,
      Name := f.productName,
      price := f.productPrice,
      country := f.productCountry,
      availability := AvailabilityOf(f.rollerActive),
      category := f.productCategory,
      image := if image != "" then image else DEFAULT_IMAGE,
      quantity := 0)]
  }

  /** The catalog after writing the form over the first product whose id is `id`. */
  function UpdateProduct(products: seq<Product>, id: int, f: ProductForm, image: string): (r: seq<Product>)
    ensures |r| == |products|
    ensures forall j :: 0 <= j < |r| ==> r[j].id == products[j].id && r[j].quantity == products[j].quantity
  {
    match ProductIndex(products, id)
    case None => products
    case Some(i) =>
      products[i := products[i].(
        Name := f.productName,
        price := f.productPrice,
        country := f.productCountry,
        availability := AvailabilityOf(f.rollerActive),
        category := f.productCategory,
        image := if image != "" then image else products[i].image)]
  }

  /** The catalog `handleFormSubmit` writes back once the required fields are filled. */
  function SubmittedCatalog(products: seq<Product>, currentProductId: Option<int>, f: ProductForm,
                            uploaded: Option<string>, now: int): (r: seq<Product>)
    ensures IsEditing(currentProductId) ==> |r| == |products|
    ensures !IsEditing(currentProductId) ==>
      |r| == |products| + 1 && r[..|products|] == products && r[|products|].id == now
  {
    var image := ChosenImage(uploaded, f.productImage);
    if IsEditing(currentProductId) then UpdateProduct(products, currentProductId.value, f, image)
    else CreateProduct(products, f, image, now)
  }

  /** Updating an id the catalog does not hold leaves the catalog as it was. */
  lemma UpdateUnknownIdIsNoop(products: seq<Product>, id: int, f: ProductForm, image: string)
    requires forall j :: 0 <= j < |products| ==> products[j].id != id
    ensures UpdateProduct(products, id, f, image) == products
  {
  }

  /** Updating rewrites the first product with the id and no other: it keeps that
      product's id and quantity, takes the form's fields, and keeps the old image
      when no image was chosen. */
  lemma {:induction false} UpdateRewritesFirstMatch(products: seq<Product>, id: int, f: ProductForm, image: string, i: nat)
    requires i < |products| && products[i].id == id
    requires forall j :: 0 <= j < i ==> products[j].id != id
    ensures var r := UpdateProduct(products, id, f, image);
      && r[i].id == id && r[i].quantity == products[i].quantity
      && r[i].Name == f.productName && r[i].price == f.productPrice
      && r[i].country == f.productCountry && r[i].category == f.productCategory
      && r[i].availability == AvailabilityOf(f.rollerActive)
      && r[i].image == (if image == "" then products[i].image else image)
      && forall j :: 0 <= j < |r| && j != i ==> r[j] == products[j]
  {
  }

  /** `deleteProduct`: the catalog without any product whose id is `id`. */
  function DeleteProduct(products: seq<Product>, id: int): (r: seq<Product>)
    ensures forall p :: p in r <==> p in products && p.id != id
  {
    Filter(products, (p: Product) => p.id != id)
  }

  /** Deleting keeps the other products in their order: it acts on each part of a
      split catalog separately. */
  lemma DeleteSplits(a: seq<Product>, b: seq<Product>, id: int)
    ensures DeleteProduct(a + b, id) == DeleteProduct(a, id) + DeleteProduct(b, id)
  {
    FilterConcat(a, b, (p: Product) => p.id != id);
  }

  /** Deleting an id that no product has is a no-op. */
  lemma DeleteAbsentIsNoop(products: seq<Product>, id: int)
    requires forall j :: 0 <= j < |products| ==> products[j].id != id
    ensures DeleteProduct(products, id) == products
  {
    FilterAllKept(products, (p: Product) => p.id != id);
  }

  /** Deleting the same id twice is the same as deleting it once. */
  lemma DeleteIdempotent(products: seq<Product>, id: int)
    ensures DeleteProduct(DeleteProduct(products, id), id) == DeleteProduct(products, id)
  {
    FilterIdempotent(products, (p: Product) => p.id != id);
  }

  /** In a catalog with unique ids, deleting the product at position `i` removes
      exactly that position. */
  lemma DeleteUniqueIsRemoveAt(products: seq<Product>, i: nat)
    requires UniqueIds(products) && i < |products|
    ensures DeleteProduct(products, products[i].id) == products[..i] + products[i + 1..]
  {
    var id := products[i].id;
    FilterDropsUniqueAt(products, (p: Product) => p.id != id, ProductId, i);
  }

  /** Creating keeps ids unique, given that the id the new product gets (the
      clock) is not already taken. */
  lemma CreateKeepsIdsUnique(products: seq<Product>, f: ProductForm, image: string, now: int)
    requires UniqueIds(products)
    requires forall j :: 0 <= j < |products| ==> products[j].id != now
    ensures UniqueIds(CreateProduct(products, f, image, now))
  {
    var c := CreateProduct(products, f, image, now);
    forall i, j | 0 <= i < j < |c| ensures ProductId(c[i]) != ProductId(c[j]) {
      if j < |products| {
        assert c[i] == products[i] && c[j] == products[j];
      } else {
        assert c[i] == products[i];
      }
    }
  }

  /** Updating keeps ids unique: it never changes an id. */
  lemma UpdateKeepsIdsUnique(products: seq<Product>, f: ProductForm, image: string, id: int)
    requires UniqueIds(products)
    ensures UniqueIds(UpdateProduct(products, id, f, image))
  {
    var u := UpdateProduct(products, id, f, image);
    forall i, j | 0 <= i < j < |u| ensures ProductId(u[i]) != ProductId(u[j]) {
      assert ProductId(products[i]) != ProductId(products[j]);
    }
  }

  /** Deleting keeps ids unique. */
  lemma DeleteKeepsIdsUnique(products: seq<Product>, id: int)
    requires UniqueIds(products)
    ensures UniqueIds(DeleteProduct(products, id))
  {
    FilterUniqueBy(products, (p: Product) => p.id != id, ProductId);
  }

  /** The three numbers `updateStats` shows. */
  datatype Stats = Stats(totalProducts: nat, inStockProducts: nat, outOfStockProducts: int)

  predicate IsInStock(p: Product) { p.availability == IN_STOCK }
  predicate IsNotInStock(p: Product) { p.availability != IN_STOCK }

  /** `updateStats`: in stock counts the products whose availability is exactly
      "In Stock", out of stock is the rest; any other text counts as out of stock. */
  function UpdateStats(products: seq<Product>): (r: Stats)
    ensures r.totalProducts == |products|
    ensures r.inStockProducts == |Filter(products, IsInStock)|
    ensures r.outOfStockProducts == |Filter(products, IsNotInStock)|
    ensures r.inStockProducts + r.outOfStockProducts == r.totalProducts
  {
    FilterComplementLength(products, IsInStock, IsNotInStock);
    var total := |products|;
    var inStock := |Filter(products, IsInStock)|;
    Stats(total, inStock, total - inStock)
  }

  /** The admin page's module-level state: the id being edited and the data of the
      last uploaded image. */
  class AdminForm {
    var currentProductId: Option<int>
    var uploadedImageData: Option<string>

    constructor (currentProductId: Option<int>, uploadedImageData: Option<string>)
      ensures this.currentProductId == currentProductId && this.uploadedImageData == uploadedImageData
    {
      this.currentProductId := currentProductId;
      this.uploadedImageData := uploadedImageData;
    }

    /** `handleFormSubmit`, `now` standing for `Date.now()`. A form with an empty
        required field changes nothing; otherwise the catalog is rewritten and the
        modal is closed, which forgets the edited id. */
    method HandleFormSubmit(store: Store, f: ProductForm, now: int)
      modifies this, store
      ensures !RequiredFieldsFilled(f) ==>
        store.products == old(store.products) && currentProductId == old(currentProductId)
      ensures RequiredFieldsFilled(f) ==>
        store.products == Some(SubmittedCatalog(Load(old(store.products)), old(currentProductId), f,
                                                old(uploadedImageData), now))
        && currentProductId == None
      ensures uploadedImageData == old(uploadedImageData)
      ensures store.cart == old(store.cart) && store.orders == old(store.orders)
    {
      if !RequiredFieldsFilled(f) {
        return;
      }
      var productImage := ChosenImage(uploadedImageData, f.productImage);
      var products := Load(store.products);
      if IsEditing(currentProductId) {
        products := UpdateProduct(products, currentProductId.value, f, productImage);
      } else {
        products := CreateProduct(products, f, productImage, now);
      }
      store.products := Some(products);
      currentProductId := None;
    }
  }
}
