/**
 * The inventory screen: the product catalogue with a category tab, a
 * text search, a three-level stock badge, an add/edit form with numeric
 * rules and a confirmed delete. Prices are integer centavos.
 */
module InventoryPage {
  import opened Common
  import opened ProductData

  /** `categoryTranslations`. */
  function CategoryLabel(c: Category): string {
    match c
    case Smartphones => "Smartphones"
    case Accessories => "Acessórios"
    case Parts => "Peças"
    case Tablets => "Tablets"
  }

  /** Each category has its own label. */
  lemma CategoryLabelInjective(c1: Category, c2: Category)
    requires CategoryLabel(c1) == CategoryLabel(c2)
    ensures c1 == c2
  {
    var l1, l2 := CategoryLabel(c1), CategoryLabel(c2);
    assert l1[0] == l2[0] && |l1| == |l2|;
  }

  // ---------------------------------------------------------------------
  // Stock level
  // ---------------------------------------------------------------------

  datatype StockLevel = Critical | Low | InStock

  /**
   * The badge on a product card: critical when the quantity is at most
   * half the threshold (a real division), low when it is at most the
   * threshold, in stock otherwise.
   */
  function StockLevelOf(p: Product): (l: StockLevel)
    ensures l == Critical <==> 2 * p.quantity <= p.lowStockThreshold
    ensures l == Low <==> p.lowStockThreshold < 2 * p.quantity && p.quantity <= p.lowStockThreshold
    ensures l == InStock <==> p.lowStockThreshold < p.quantity && p.lowStockThreshold < 2 * p.quantity
  {
    if p.quantity as real <= p.lowStockThreshold as real / 2.0 then Critical
    else if p.quantity <= p.lowStockThreshold then Low
    else InStock
  }

  function StockBadge(l: StockLevel): BadgeVariant {
    match l
    case Critical => Error
    case Low => Warning
    case InStock => Success
  }

  function StockLabel(l: StockLevel): string {
    match l
    case Critical => "Estoque Crítico"
    case Low => "Estoque Baixo"
    case InStock => "Em Estoque"
  }

  /**
   * With a non-negative threshold (which the form enforces) the levels are
   * ordered: critical stock is at most the threshold, and a product is
   * anything but in stock exactly when its quantity is at most the threshold.
   */
  lemma StockLevelsOrdered(p: Product)
    requires p.lowStockThreshold >= 0
    ensures StockLevelOf(p) == Critical ==> p.quantity <= p.lowStockThreshold
    ensures StockLevelOf(p) != InStock <==> p.quantity <= p.lowStockThreshold
  {
  }

  /**
   * Without that rule the badge could say critical for a product above its
   * threshold: threshold -4, quantity -2.
   */
  lemma NegativeThresholdBreaksOrder()
    ensures exists p: Product :: StockLevelOf(p) == Critical && p.quantity > p.lowStockThreshold
  {
    var p := Product("", "", "", Parts, 0, 0, -2, -4, "", "", "");
    assert StockLevelOf(p) == Critical;
  }

  // ---------------------------------------------------------------------
  // Search
  // ---------------------------------------------------------------------

  /** The term occurs, ignoring case, in the name, the description or the SKU. */
  predicate ProductTextMatches(p: Product, term: string) {
    || Includes(Lower(p.name), Lower(term))
    || Includes(Lower(p.description), Lower(term))
    || Includes(Lower(p.sku), Lower(term))
  }

  /** The category tab (`None` is "all") and the text search must both accept the product. */
  predicate ProductMatches(p: Product, category: Option<Category>, term: string) {
    (category.None? || p.category == category.value) && ProductTextMatches(p, term)
  }

  /** `filteredProducts`: the products both filters keep, in catalogue order. */
  function FilteredProducts(products: seq<Product>, category: Option<Category>, term: string): (r: seq<Product>)
    ensures forall i :: 0 <= i < |r| ==> r[i] in products && ProductMatches(r[i], category, term)
    ensures forall i :: 0 <= i < |products| && ProductMatches(products[i], category, term) ==> products[i] in r
  {
    Filter(products, p => ProductMatches(p, category, term))
  }

  /** The "all" tab with an empty search shows the whole catalogue, in order. */
  lemma FilteredProductsShowAll(products: seq<Product>)
    ensures FilteredProducts(products, None, "") == products
  {
    forall i | 0 <= i < |products| ensures ProductMatches(products[i], None, "") {
      IncludesLowerEmpty(products[i].name);
    }
    FilterKeepsAll(products, p => ProductMatches(p, None, ""));
  }

  /** A category tab never shows a product of another category. */
  lemma FilteredProductsInCategory(products: seq<Product>, c: Category, term: string)
    ensures forall p :: p in FilteredProducts(products, Some(c), term) ==> p.category == c
  {
  }

  // ---------------------------------------------------------------------
  // The form
  // ---------------------------------------------------------------------

  /** The product form. A number field left empty is `None`. */
  datatype ProductForm = ProductForm(
    name: string,
    description: string,
    category: Category,
    sku: string,
    purchasePrice: Option<int>,
    sellingPrice: Option<int>,
    quantity: Option<int>,
    lowStockThreshold: Option<int>,
    imageUrl: string)

  const DefaultImageUrl := "https://images.pexels.com/photos/5750001/pexels-photo-5750001.jpeg"

  /** What the add form starts with: smartphones, a threshold of 5 and a stock photo. */
  const BlankForm := ProductForm("", "", Smartphones, "", None, None, None, Some(5), DefaultImageUrl)

  /** A number field is filled in and at least 0. */
  predicate NumberOk(v: Option<int>) {
    v.Some? && v.value >= 0
  }

  /** Every field is required; the four number fields must also be at least 0. */
  predicate FormValid(f: ProductForm) {
    && f.name != "" && f.description != "" && f.sku != "" && f.imageUrl != ""
    && NumberOk(f.purchasePrice) && NumberOk(f.sellingPrice)
    && NumberOk(f.quantity) && NumberOk(f.lowStockThreshold)
  }

  /** The blank add form cannot be submitted as it is. */
  lemma BlankFormInvalid()
    ensures !FormValid(BlankForm)
  {
  }

  /** No amount or count of the product is negative. */
  predicate StockWellFormed(p: Product) {
    p.purchasePrice >= 0 && p.sellingPrice >= 0 && p.quantity >= 0 && p.lowStockThreshold >= 0
  }

  /** What the form shows for a product being edited. */
  function FormOf(p: Product): ProductForm {
    ProductForm(p.name, p.description, p.category, p.sku, Some(p.purchasePrice), Some(p.sellingPrice),
                Some(p.quantity), Some(p.lowStockThreshold), p.imageUrl)
  }

  /** `{ ...product, ...data }`: a valid form's fields over the record's. */
  function WithForm(p: Product, f: ProductForm): (r: Product)
    requires FormValid(f)
    ensures FormOf(r) == f
    ensures r.id == p.id && r.createdAt == p.createdAt
    ensures StockWellFormed(r)
  {
    p.(name := f.name, description := f.description, category := f.category, sku := f.sku,
       purchasePrice := f.purchasePrice.value, sellingPrice := f.sellingPrice.value,
       quantity := f.quantity.value, lowStockThreshold := f.lowStockThreshold.value, imageUrl := f.imageUrl)
  }

  /** A well-formed product's own form is valid, and saving it unchanged gives the product back. */
  lemma OwnFormRoundTrip(p: Product)
    requires StockWellFormed(p) && p.name != "" && p.description != "" && p.sku != "" && p.imageUrl != ""
    ensures FormValid(FormOf(p))
    ensures WithForm(p, FormOf(p)) == p
  {
  }

  function NewProduct(f: ProductForm, id: string, today: string): (p: Product)
    requires FormValid(f)
    ensures FormOf(p) == f && p.id == id && p.createdAt == today
    ensures StockWellFormed(p)
  {
    WithForm(Product(id, "", "", Smartphones, 0, 0, 0, 0, "", "", today), f)
  }

  function ProductIds(products: seq<Product>): (r: seq<string>)
    ensures |r| == |products|
    ensures forall i :: 0 <= i < |products| ==> r[i] == products[i].id
  {
    seq(|products|, i requires 0 <= i < |products| => products[i].id)
  }

  predicate AllWellFormed(products: seq<Product>) {
    forall i :: 0 <= i < |products| ==> StockWellFormed(products[i])
  }

  // ---------------------------------------------------------------------
  // List operations
  // ---------------------------------------------------------------------

  /** `handleAddProduct`: the new product goes first, the others follow unchanged. */
  function AddProduct(products: seq<Product>, f: ProductForm, id: string, today: string): (r: seq<Product>)
    requires FormValid(f)
    ensures |r| == |products| + 1 && r[1..] == products
    ensures r[0].id == id && FormOf(r[0]) == f
    ensures AllWellFormed(products) ==> AllWellFormed(r)
  {
    [NewProduct(f, id, today)] + products
  }

  /**
   * `handleEditProduct`: every entry with the selected product's id
   * becomes the selected product with the form's fields; ids, length and
   * the other entries stay.
   */
  function EditProduct(products: seq<Product>, selected: Product, f: ProductForm): (r: seq<Product>)
    requires FormValid(f)
    ensures ProductIds(r) == ProductIds(products)
    ensures forall i :: 0 <= i < |products| && products[i].id != selected.id ==> r[i] == products[i]
    ensures forall i :: 0 <= i < |products| && products[i].id == selected.id ==>
              FormOf(r[i]) == f && r[i].createdAt == selected.createdAt
    ensures AllWellFormed(products) ==> AllWellFormed(r)
  {
    seq(|products|, i requires 0 <= i < |products| =>
      if products[i].id == selected.id then WithForm(selected, f) else products[i])
  }

  /**
   * `handleDeleteProduct`: unless confirmed nothing changes; once
   * confirmed every entry with that id is gone and every other entry stays.
   */
  function DeleteProduct(products: seq<Product>, id: string, confirmed: bool): (r: seq<Product>)
    ensures !confirmed ==> r == products
    ensures confirmed ==> forall i :: 0 <= i < |r| ==> r[i].id != id && r[i] in products
    ensures confirmed ==> forall i :: 0 <= i < |products| && products[i].id != id ==> products[i] in r
    ensures AllWellFormed(products) ==> AllWellFormed(r)
  {
    if confirmed then Filter(products, (p: Product) => p.id != id) else products
  }

  /** Deleting keeps the order of the remaining products. */
  lemma DeleteProductKeepsOrder(a: seq<Product>, b: seq<Product>, id: string)
    ensures DeleteProduct(a + b, id, true) == DeleteProduct(a, id, true) + DeleteProduct(b, id, true)
  {
    FilterAppend(a, b, (p: Product) => p.id != id);
  }

  // ---------------------------------------------------------------------
  // The screen
  // ---------------------------------------------------------------------

  class InventoryScreen {
    var products: seq<Product>
    /** The product the form is editing; none while adding. */
    var selectedProduct: Option<Product>
    var searchTerm: string
    /** The category tab; `None` is "all". */
    var activeCategory: Option<Category>

    constructor (initial: seq<Product>)
      ensures products == initial && selectedProduct == None
      ensures searchTerm == "" && activeCategory == None
    {
      products := initial;
      selectedProduct := None;
      searchTerm := "";
      activeCategory := None;
    }

    /** The cards the screen shows: the products in the chosen tab that match the search term. */
    function Visible(): (r: seq<Product>)
      reads this
      ensures forall i :: 0 <= i < |r| ==> r[i] in products && ProductMatches(r[i], activeCategory, searchTerm)
      ensures forall i :: 0 <= i < |products| && ProductMatches(products[i], activeCategory, searchTerm) ==> products[i] in r
    {
      FilteredProducts(products, activeCategory, searchTerm)
    }

    method Search(term: string)
      modifies this
      ensures searchTerm == term
      ensures products == old(products) && selectedProduct == old(selectedProduct) && activeCategory == old(activeCategory)
    {
      searchTerm := term;
    }

    method SelectCategory(c: Option<Category>)
      modifies this
      ensures activeCategory == c
      ensures products == old(products) && selectedProduct == old(selectedProduct) && searchTerm == old(searchTerm)
    {
      activeCategory := c;
    }

    /** `openAddModal`: no product selected; the form is reset to the blank form. */
    method OpenAddModal() returns (form: ProductForm)
      modifies this
      ensures selectedProduct == None && form == BlankForm
      ensures products == old(products) && searchTerm == old(searchTerm) && activeCategory == old(activeCategory)
    {
      selectedProduct := None;
      form := BlankForm;
    }

    /** `openEditModal`: the form is loaded with the product. */
    method OpenEditModal(p: Product) returns (form: ProductForm)
      modifies this
      ensures selectedProduct == Some(p) && form == FormOf(p)
      ensures products == old(products) && searchTerm == old(searchTerm) && activeCategory == old(activeCategory)
    {
      selectedProduct := Some(p);
      form := FormOf(p);
    }

    /**
     * Submitting the form: an invalid form changes nothing; a valid one
     * edits the selected product or adds a new one, then the selection is cleared.
     */
    method Submit(f: ProductForm, id: string, today: string) returns (accepted: bool)
      modifies this
      ensures accepted == FormValid(f)
      ensures !accepted ==> products == old(products) && selectedProduct == old(selectedProduct)
      ensures accepted ==> selectedProduct == None
      ensures accepted && old(selectedProduct).Some? ==>
                products == EditProduct(old(products), old(selectedProduct).value, f)
      ensures accepted && old(selectedProduct).None? ==> products == AddProduct(old(products), f, id, today)
      ensures searchTerm == old(searchTerm) && activeCategory == old(activeCategory)
    {
      if !FormValid(f) {
        return false;
      }
      if selectedProduct.Some? {
        products := EditProduct(products, selectedProduct.value, f);
      } else {
        products := AddProduct(products, f, id, today);
      }
      selectedProduct := None;
      return true;
    }

    /** The delete button, with the answer to the confirmation dialog as `confirmed`. */
    method Delete(id: string, confirmed: bool)
      modifies this
      ensures products == DeleteProduct(old(products), id, confirmed)
      ensures selectedProduct == old(selectedProduct) && searchTerm == old(searchTerm) && activeCategory == old(activeCategory)
    {
      products := DeleteProduct(products, id, confirmed);
    }
  }
}
